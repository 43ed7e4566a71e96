# Kelas: a verified model of a reflection-based grading helper

Kelas wraps a Java class and answers structural questions about it for an
automated assignment checker. Does the class extend a given parent? Which supertypes do
two classes share? Which of its constructors are public? The answers are
packed into pass/fail `Check` records.

This project models everything above Java reflection. A class is a value
(`ClassMeta.ClassInfo`) with these parts:

- its identity
- its modifiers
- its optional declared superclass (`java.lang.Object` is `ObjectId`)
- its declared interfaces, in order
- its declared fields, methods and constructors (`Member`: name, modifiers,
  parameter types, declared type)

Class loading (`Class.forName`) is the partial map `Registry`, and a name
that does not load gives `ClassNotFound`.

Modules, one per source component:

- `Seqs`: the eager stream `filter` and the subsequence relation, with the
  lemmas that describe chains of filters.
- `ClassMeta`: the class value, members, static-field reads, errors and the
  registry.
- `Kelas` (`Kelas.java`): the relationship engine. This covers `doesExtend`,
  `doesImplement`, `commonParent`, the common-interface and common-supertype
  lists, `shareCommonSupertypeWith`, `getSubclasses`, `equals`, and the
  factories for member pipelines.
- `KelasConstructors` (`KelasConstructors.java`): the chainable pipeline as
  the class `MemberStream`. Each filter stage reassigns the `stream` field
  and returns the same object. A terminal operation needs an unspent stream
  and marks it spent. `getFields` and `getMethods` seed the same class with
  the declared fields or methods.
- `Checks` (`Check.java`): the immutable pass/message record.
- `KelasUtils` (`KelasUtils.java`): `checkIfClassesExist`,
  `checkCommonParent`, `checkChildOf` and `mustNotHaveOnlyInterfaceAsParent`.
- `KelasOld` (`KelasOld.java`): the superseded wrapper. It has the
  field-visibility lists, the constant-value lookup, the method queries and
  the old supertype relations. It is a separate module over the same class
  value. As written, `KelasOld.java` does not compile: the class is named
  `KelasOld` but its constructors and parameter types say `Kelas`. The model
  reads those names as the same class.

Where `this.c.getSuperclass()` would be null (interfaces, `Object`), the Java
code throws `NullPointerException`. Every query that dereferences the
superclass of `this` therefore requires `k.superclass.Some?`. The other
class's superclass may be absent: `x.equals(null)` is false, and an absent
superclass equals no class.

The Javadoc of `hasFieldWithTypeValue` says "Return true if a field is
found with given type and value" (`KelasOld.java:128`), and that of
`hasPublicConstantFieldWithTypeValue` says the same of constants (line 147).
In two places the code does not do that. The model follows the code, here
and in the undocumented private-constant lookup:

- The `try` encloses the whole loop, so a lookup stops with `false` at the
  first field it cannot read. It does not skip that field and go on. The
  two declared-type lookups (`hasFieldWithTypeValue`,
  `hasPublicConstantFieldWithTypeValue`) compare `f.getType()` before
  reading, so only an unreadable field of the wanted type stops them. The
  private-constant lookup reads every field first, so any unreadable field
  stops it.
- For a primitive type such as `int`, the two declared-type lookups throw
  `ClassCastException` at the first field of that type, when that field can
  be read, instead of finding the constant (see Findings). The private-constant lookup compares
  the value's run-time class, a boxed class such as `java.lang.Integer`,
  with the type, so it answers `false` and does not throw.

## Model

| member | source | states |
|---|---|---|
| `Kelas.DoesExtend` | src/cs2030s/grader/Kelas.java:84-94 | true iff the superclass is not `Object` and is `parent`; never true for `parent == Object` |
| `Kelas.DoesImplement` | src/cs2030s/grader/Kelas.java:96-108 | the loop with early return computes `Implements`: false whenever the superclass is `Object`, else whether the interface is declared |
| `Kelas.DoesImplementMissesDeclaredInterface` | src/cs2030s/grader/Kelas.java:96-100 | a class extending `Object` that declares `Comparable` is reported as not implementing it |
| `Kelas.DoesImplementCorrected` | src/cs2030s/grader/Kelas.java:96-108 | the intended relation: true iff the interface is among the declared interfaces |
| `Kelas.CommonParent` | src/cs2030s/grader/Kelas.java:131-133 | true iff `that` has a superclass and it is the superclass of `this`; a shared superclass counts as a common supertype iff `commonParent` holds and it is not `Object` |
| `Kelas.CommonParentCountsObject` | src/cs2030s/grader/Kelas.java:131-133 | `commonParent` is plain superclass equality: two classes extending `Object` satisfy it though they share no supertype entry |
| `Kelas.GetCommonInterfacesWith` | src/cs2030s/grader/Kelas.java:135-145 | the nested loops build exactly `CommonInterfaces` of the two interface lists |
| `Kelas.AppendMatches` | src/cs2030s/grader/Kelas.java:138-142 | the inner loop appends exactly `Matches` of one interface of `this` to the list built so far |
| `Kelas.MatchesCount` | src/cs2030s/grader/Kelas.java:138-142 | the inner loop adds `x` once per occurrence of `x` in `that`'s interfaces and nothing else |
| `Kelas.CommonInterfacesCount` | src/cs2030s/grader/Kelas.java:135-145 | each interface z occurs (occurrences in `this`) × (occurrences in `that`) times |
| `Kelas.CommonInterfacesMembers` | src/cs2030s/grader/Kelas.java:135-145 | an interface is listed iff both classes declare it |
| `Kelas.CommonInterfacesSwap` | src/cs2030s/grader/Kelas.java:137-143 | swapping the classes keeps the same multiset and set of interfaces, though not their order |
| `Kelas.MatchesNoDuplicates` | src/cs2030s/grader/Kelas.java:138-142 | when `that` declares no interface twice, the inner loop adds `x` once if declared and otherwise nothing |
| `Kelas.CommonInterfacesFollowThisOrder` | src/cs2030s/grader/Kelas.java:137-143 | when `that` declares no interface twice, the list is `this`'s interfaces filtered to those `that` declares, in `this`'s order |
| `Kelas.GetCommonSupertypeWith` | src/cs2030s/grader/Kelas.java:117-129 | appending the shared superclass and then the common interfaces builds exactly `CommonSupertypes` |
| `Kelas.CommonSupertypesShape` | src/cs2030s/grader/Kelas.java:117-129 | the list starts with the superclass iff both superclasses are equal and not `Object`, the rest is exactly the common interfaces, and its length is 0 or 1 plus their count; with superclass `Object` it is just the interfaces |
| `Kelas.ShareCommonSupertypeWith` | src/cs2030s/grader/Kelas.java:160-163 | true iff the common-supertype list is non-empty |
| `Kelas.ShareCommonSupertypeIff` | src/cs2030s/grader/Kelas.java:117-163 | true iff the classes share a non-`Object` superclass or declare a common interface |
| `Kelas.CommonSupertypesSwap` | src/cs2030s/grader/Kelas.java:117-129 | swapping the classes keeps the multiset of supertypes and the answer of `shareCommonSupertypeWith` |
| `Kelas.EqualsIsEquivalence` | src/cs2030s/grader/Kelas.java:173-175 | `equals` is reflexive, symmetric and transitive, and holds for any two values of the same class whatever their members |
| `Kelas.RelationsRespectEquals` | src/cs2030s/grader/Kelas.java:173-175 | `equals` compares identity only, and `doesExtend` and `doesImplement` give the same answer for equal parents |
| `Kelas.GetSubclasses` | src/cs2030s/grader/Kelas.java:147-151 | exactly the enumerated classes whose superclass is `this`, each as often as it is enumerated, as a subsequence of the enumeration; an enumeration failure propagates |
| `Kelas.GetFields` | src/cs2030s/grader/Kelas.java:64-66 | a fresh, unspent stream holding all declared fields in declaration order |
| `Kelas.GetMethods` | src/cs2030s/grader/Kelas.java:72-74 | a fresh, unspent stream holding all declared methods in declaration order |
| `Kelas.GetConstructors` | src/cs2030s/grader/Kelas.java:80-82 | a fresh, unspent stream holding all declared constructors in declaration order |
| `KelasConstructors.MemberStream.constructor` | src/cs2030s/grader/KelasConstructors.java:19-21 | the stream holds the given members, is the recorded original and is unspent |
| `KelasConstructors.MemberStream.Filter` | src/cs2030s/grader/KelasConstructors.java:77-80 | keeps exactly the members matching `pred`, as a subsequence of the previous stream; changes only `stream`; returns `this` |
| `KelasConstructors.MemberStream.FilterPublic` | src/cs2030s/grader/KelasConstructors.java:26-32 | keeps the public members (`allowed`) or the non-public ones; subsequence; returns `this` |
| `KelasConstructors.MemberStream.FilterPrivate` | src/cs2030s/grader/KelasConstructors.java:34-40 | the same for `private` |
| `KelasConstructors.MemberStream.AreProtected` | src/cs2030s/grader/KelasConstructors.java:52-58 | the same for `protected` |
| `KelasConstructors.MemberStream.AreStatic` | src/cs2030s/grader/KelasConstructors.java:60-66 | the same for `static` |
| `KelasConstructors.MemberStream.AreFinal` | src/cs2030s/grader/KelasConstructors.java:68-74 | the same for `final` |
| `KelasConstructors.MemberStream.ExcludeDefault` | src/cs2030s/grader/KelasConstructors.java:46-50 | a member survives iff it takes parameters or is public |
| `KelasConstructors.MemberStream.HaveName` | src/cs2030s/grader/KelasConstructors.java:90-93 | keeps exactly the members whose name equals `name` |
| `KelasConstructors.MemberStream.ToList` | src/cs2030s/grader/KelasConstructors.java:103-105 | returns the remaining members in order, a subsequence of the original; consumes the stream |
| `KelasConstructors.MemberStream.Count` | src/cs2030s/grader/KelasConstructors.java:112-114 | the number of remaining members; consumes the stream |
| `KelasConstructors.MemberStream.CountEquals` | src/cs2030s/grader/KelasConstructors.java:121-123 | true iff the count equals `number`; consumes the stream through `count` |
| `KelasConstructors.MemberStream.AreAbsent` | src/cs2030s/grader/KelasConstructors.java:130-132 | true iff no member remains (so it agrees with `countEquals(0)`); consumes the stream through `count` |
| `KelasConstructors.MemberStream.ArePresent` | src/cs2030s/grader/KelasConstructors.java:138-140 | the negation of `areAbsent`; consumes the stream |
| `KelasConstructors.MemberStream.HasOnlyPrivate` | src/cs2030s/grader/KelasConstructors.java:42-44 | true iff every remaining member is private, so true when none remain; consumes the stream |
| `KelasConstructors.ModifierStagesPartition` | src/cs2030s/grader/KelasConstructors.java:26-74 | a modifier stage with `allowed` true and with `allowed` false partitions any stream: the two multisets add up to it and each member lands on the side its modifier says |
| `KelasConstructors.ModifierStagesKeepOrder` | src/cs2030s/grader/KelasConstructors.java:26-74 | both sides of a modifier stage keep the order of the stream |
| `KelasConstructors.ExcludeDefaultRemovesExactly` | src/cs2030s/grader/KelasConstructors.java:46-50 | what `excludeDefault` keeps plus the non-public no-argument constructors make up the stream; a public no-argument constructor is kept |
| `Seqs.Filter` | src/cs2030s/grader/KelasConstructors.java:77-80 | a stage keeps exactly the elements satisfying its predicate and never grows the stream |
| `Seqs.FilterCount` | src/cs2030s/grader/KelasConstructors.java:77-80 | a stage keeps each accepted element as often as the stream holds it and drops every other element |
| `Seqs.FilterIsSubsequence` | src/cs2030s/grader/KelasConstructors.java:26-93 | every stage leaves a subsequence of its input, keeping the relative order |
| `Seqs.SubsequenceTrans` | src/cs2030s/grader/KelasConstructors.java:26-93 | a chain of stages leaves a subsequence of the original stream |
| `Seqs.FilterPartition` | src/cs2030s/grader/KelasConstructors.java:26-74 | a stage and its complementary stage split the stream with multiplicities |
| `Seqs.FilterFilter` | src/cs2030s/grader/KelasConstructors.java:26-93 | two chained stages keep exactly what one stage with the conjunction keeps |
| `Seqs.FilterCommute` | src/cs2030s/grader/KelasConstructors.java:26-93 | the order of two chained stages does not change the result |
| `Checks.Passed` | src/cs2030s/grader/Check.java:12-14 | `passed()` is true exactly for a check made with `pass == true` |
| `Checks.GetMessage` | src/cs2030s/grader/Check.java:16-19 | "Check passed" for a passing check whatever its error text; the stored error text for a failing one |
| `Checks.MessageOfCheck` | src/cs2030s/grader/Check.java:7-19 | a passing check's message does not depend on its error text; `passed()` returns the constructor argument |
| `ClassMeta.Resolve` | src/cs2030s/grader/Kelas.java:28-30 | a name loads iff the registry knows it; otherwise `ClassNotFound(name)` |
| `KelasUtils.CheckIfClassesExist` | src/cs2030s/grader/KelasUtils.java:18-30 | passes iff every name loads (so the empty list passes); the message names `LastNotFound` |
| `KelasUtils.LastNotFoundIsLast` | src/cs2030s/grader/KelasUtils.java:21-29 | the recorded name is the unloadable name at the highest position, or "" when all load |
| `KelasUtils.CheckCommonParent` | src/cs2030s/grader/KelasUtils.java:35-46 | passes iff `shareCommonSupertypeWith` is false; an unloadable name propagates as `ClassNotFound` of the first such name, also when the first class has no superclass |
| `KelasUtils.CheckCommonParentPasses` | src/cs2030s/grader/KelasUtils.java:41-45 | passes iff the classes share neither a non-`Object` superclass nor a declared interface |
| `KelasUtils.CheckChildOf` | src/cs2030s/grader/KelasUtils.java:51-57 | passes iff `doesExtend(parent)`; an unloadable name propagates, also when the class has no superclass |
| `KelasUtils.CheckChildOfPasses` | src/cs2030s/grader/KelasUtils.java:51-57 | passes iff the parent is the direct superclass and is not `Object` |
| `KelasUtils.MustNotHaveOnlyInterfaceAsParent` | src/cs2030s/grader/KelasUtils.java:59-68 | an unloadable name propagates, also when the first class has no superclass; otherwise a check with the fixed message |
| `KelasUtils.MustNotHaveOnlyInterfaceAsParentPasses` | src/cs2030s/grader/KelasUtils.java:64-65 | the length comparison passes iff the classes share a non-`Object` superclass |
| `KelasUtils.SecondNameMissing` | src/cs2030s/grader/KelasUtils.java:35-68 | both names are loaded before any superclass is read, so an unloadable second name gives `ClassNotFound` of that name in all three checks |
| `KelasUtils.ZooDogCatSupertypes` | src/cs2030s/grader/Kelas.java:117-129 | Dog (`extends Animal implements Comparable`) and Cat (`extends Animal implements Serializable`) have exactly `Animal` as common supertype |
| `KelasUtils.ZooDogCat` | src/cs2030s/grader/KelasUtils.java:35-46 | so `checkCommonParent` fails Dog and Cat with its message |
| `KelasUtils.ZooDogRobotSupertypes` | src/cs2030s/grader/Kelas.java:117-129 | Dog and Robot (`implements Comparable`, superclass `Object`) have exactly `Comparable` as common supertype and share no superclass |
| `KelasUtils.ZooDogRobot` | src/cs2030s/grader/KelasUtils.java:59-68 | so `mustNotHaveOnlyInterfaceAsParent` fails Dog and Robot |
| `KelasUtils.ZooChildOf` | src/cs2030s/grader/KelasUtils.java:51-57 | Dog extends Animal but not `Object`; an unknown parent propagates `ClassNotFound` |
| `KelasOld.GetAllFields` | KelasOld.java:46-49 | all declared fields, unfiltered, in declaration order |
| `KelasOld.GetPublicFields` | KelasOld.java:56-60 | exactly the public fields, each as often as declared, in declaration order |
| `KelasOld.ContainsPublicFields` | KelasOld.java:62-64 | true iff some field is public |
| `KelasOld.GetDefaultFields` | KelasOld.java:66-72 | exactly the fields that are none of public, private and protected, in order |
| `KelasOld.DefaultFieldsCount` | KelasOld.java:66-72 | each package-access field is kept as often as it is declared, every other field dropped |
| `KelasOld.ContainsDefaultFields` | KelasOld.java:74-76 | true iff some field has package access |
| `KelasOld.GetPrivateFields` | KelasOld.java:84-90 | exactly the private fields that are neither static nor final, in order |
| `KelasOld.PrivateFieldsCount` | KelasOld.java:84-90 | each private field that is neither static nor final is kept as often as it is declared, every other field dropped |
| `KelasOld.ContainsPrivateFields` | KelasOld.java:92-94 | true iff some such private field exists |
| `KelasOld.PrivateFieldsExcludeStaticAndFinal` | KelasOld.java:84-90 | any static or any final private field is excluded, not just the `static final` ones |
| `KelasOld.GetPublicConstants` | KelasOld.java:101-107 | exactly the public static final fields, each as often as declared |
| `KelasOld.GetPrivateConstants` | KelasOld.java:114-121 | exactly the private static final fields, each as often as declared |
| `KelasOld.ContainsConstants` | KelasOld.java:123-125 | true iff a public constant exists (private constants do not count) |
| `KelasOld.ScanFields` | KelasOld.java:132-144 | the loop with early returns computes `Scan`: the first field that settles the lookup decides |
| `KelasOld.HasFieldWithTypeValue` | KelasOld.java:132-144 | scan over all fields: types are compared before reading, a denied read ends the scan with false, a primitive type throws at the first field of that type when that field can be read (an unreadable one first gives false); for a reference type it never throws and is true iff a field of that type holds the value before any unreadable field of that type |
| `KelasOld.HasPublicConstantFieldWithTypeValue` | KelasOld.java:151-163 | the same scan over the public constants, with the same meaning for a reference type |
| `KelasOld.HasPrivateConstantFieldWithTypeValue` | KelasOld.java:165-178 | scan over the private constants that reads every field first: never throws, and true iff some constant holds the value with the wanted run-time class and no earlier constant is unreadable |
| `KelasOld.RuntimeClassScanMeaning` | KelasOld.java:165-178 | the run-time-class scan never throws and finds the value iff such a field comes before any unreadable field, whatever that field's type |
| `KelasOld.DeclaredScanOnReferenceType` | KelasOld.java:136 | for a reference type the lookup as written equals the lookup without cast |
| `KelasOld.DeclaredScanOnPrimitiveType` | KelasOld.java:136 | for a primitive type the lookup as written never answers true |
| `KelasOld.PrimitiveLookupThrows` | KelasOld.java:136 | a readable `public static final int MAX = 10` makes the lookup for `(int, 10)` throw `ClassCastException`, while the lookup without the cast finds it |
| `KelasOld.HasFieldWithTypeValueCorrected` | KelasOld.java:132-144 | true iff a field of the type holds the value and no earlier field of that type is unreadable |
| `KelasOld.UnboxedScanMeaning` | KelasOld.java:135-143 | the lookup without cast never throws and finds the value iff such a field comes before any unreadable field of the type |
| `KelasOld.DeclaredScanSkipsOtherTypes` | KelasOld.java:134-137 | in the two declared-type lookups a field of another declared type is passed over, even when it cannot be read |
| `KelasOld.PrivatePrimitiveLookupAnswersFalse` | KelasOld.java:165-178 | a private `int` constant `MAX = 10` is not found by the lookup for `(int, 10)`, which answers false and does not throw |
| `KelasOld.PrimitiveLookupDeniedFirst` | KelasOld.java:134-141 | an unreadable `int` field before a readable `int` field holding 10 ends the lookup for `(int, 10)` with false before any cast |
| `KelasOld.RuntimeClassLookupReadsFirst` | KelasOld.java:168-172 | in the private-constant lookup an unreadable first field ends the scan with false whatever its type |
| `KelasOld.FindDeclaredMethod` | KelasOld.java:187 | finds a declared method with exactly that name and parameter list, and none iff there is none |
| `KelasOld.HasPublicMethod` | KelasOld.java:185-195 | true only if such a method is declared and public; false when none is declared |
| `KelasOld.HasPublicMethodUnique` | KelasOld.java:185-195 | with a single declaration of the signature: true iff it is public |
| `KelasOld.HasAbstractMethods` | KelasOld.java:312-320 | true iff some declared method is abstract |
| `KelasOld.GetMethods` | KelasOld.java:202-204 | all declared methods, in order; non-empty iff `hasMethods` |
| `KelasOld.HasMethods` | KelasOld.java:326-332 | true iff any method is declared |
| `KelasOld.EqualsAgrees` | KelasOld.java:338-340 | the old `equals` is the same relation as `Kelas`'s `equals` |
| `KelasOld.ShareCommonSupertypeWith` | KelasOld.java:213-229 | false when `this` extends `Object` even if interfaces are shared; otherwise true iff the superclasses are equal or an interface is shared |
| `KelasOld.OldShareImpliesNew` | KelasOld.java:213-229 | the old relation implies the new one, and the new one also holds for a class extending `Object` that shares an interface |
| `KelasOld.IsChildOf` | KelasOld.java:231-246 | false when the superclass is `Object`, before loading the parent; otherwise an unloadable parent propagates, and the answer is whether the parent is the superclass or a declared interface |
| `KelasOld.GetCommonSupertypeWith` | KelasOld.java:255-270 | builds exactly the same list as the new `getCommonSupertypeWith` |

## Left out

- Java reflection, class loading and `Modifier` bit decoding. A class is the value `ClassInfo` and loading is the map `Registry`.
- `KelasUtils.getClasses` and `findClasses` read the class-path directory. `Kelas.GetSubclasses` takes the enumeration, or its failure, as a parameter.
- The commented-out helpers in `KelasUtils.java` are not part of this model.
- The `toString` methods, because they concatenate JVM `toString` output.
- `apply(Function)` and `getC()`, the raw access to the reflective object.
- `doesImplementGenericInterface`, because it depends on the JVM's formatting of generic type names.
- The `NullPointerException` for a class without superclass. It is a precondition (`k.superclass.Some?`) on the queries and helpers that would throw.
- In the constant-value lookups, the `NullPointerException` for an instance field or a null static value. `Field.get(null)` is the parameter `read` and gives a value or `AccessDenied`. In the private variant, `read` is the read after `setAccessible(true)`.
- The type link between `Class<T> type` and `T value`. The lookup accepts any value.
- `equals` on field values is equality of run-time class and contents (`Value(cls, payload)`). Values of another class that Java's `equals` would accept, such as a `LinkedList` equal to a stored `ArrayList`, and a null `value` argument are not modelled.
- `KelasFields` and `KelasMethods`: only their seeding in `Kelas.java:64-74` is modelled, as `MemberStream` objects. Their own methods are outside this model.
- The laziness of Java streams, because the stages are applied eagerly. The result is the same. A call on a consumed stream, which in Java throws `IllegalStateException`, is excluded by each method's `requires !spent`.
- `KelasConstructors.MemberStream.Count`: it does not model the `long`-to-`int` cast of `count()`. A class file declares at most 65535 members, so the cast never truncates.
- `KelasOld.FindDeclaredMethod`: Java picks the method with the most specific return type when several declarations share the signature. The model picks the first one.
- The `KelasOld` constructors. The by-name constructor is `ClassMeta.Resolve`, and the `Class<?>` constructor is the identity on `ClassInfo`, since the wrapper is the class value itself.
- The `isAbstract` and `isInterface` functions of both wrappers are modelled without contracts. They are single modifier tests. `equals` is described by `Kelas.EqualsIsEquivalence`, `Kelas.RelationsRespectEquals` and `KelasOld.EqualsAgrees`.

## Findings

| source | as written | input that shows it | evidently intended | confidence | as-written member | corrected member |
|---|---|---|---|---|---|---|
| KelasOld.java:136 | `type.cast(f.get(null))` is called on the class object `type`. For a primitive class such as `int.class`, `Class.cast` rejects every non-null value with an uncaught `ClassCastException` | a field `public static final int MAX = 10` and the lookup `hasFieldWithTypeValue(int.class, 10)` | compare the value as read with `value`, and report true | high, not executed | `KelasOld.PrimitiveLookupThrows` | `KelasOld.HasFieldWithTypeValueCorrected` |
| src/cs2030s/grader/Kelas.java:96-100 | `doesImplement` returns false whenever the superclass is `Object`. The guard and its comment are copied from `doesExtend` | `class Robot implements Comparable` and `doesImplement(Comparable)` | true iff the interface is declared | medium, not executed | `Kelas.DoesImplementMissesDeclaredInterface` | `Kelas.DoesImplementCorrected` |
