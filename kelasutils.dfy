/** The grading helpers of `KelasUtils`: each resolves classes by name and
    packs one relation from `Kelas` into a `Check` with a fixed message.
    Class loading (`new Kelas(name)`, i.e. `Class.forName`) is the partial
    function `Resolve` over a registry of loadable classes. */
module KelasUtils {
  import opened ClassMeta
  import opened Checks
  import Kelas

  // ---------------------------------------------------------------------
  // checkIfClassesExist

  /** The last of `names` that does not resolve, or "" when all do. */
  function LastNotFound(reg: Registry, names: seq<string>): string
    decreases |names|
  {
    if names == [] then ""
    else if names[|names| - 1] !in reg then names[|names| - 1]
    else LastNotFound(reg, names[..|names| - 1])
  }

  /** `LastNotFound` names the unresolvable name with the highest position,
      and is "" exactly when every name resolves. */
  lemma {:induction false} LastNotFoundIsLast(reg: Registry, names: seq<string>)
    ensures (forall i :: 0 <= i < |names| ==> names[i] in reg) ==> LastNotFound(reg, names) == ""
    ensures (exists i :: 0 <= i < |names| && names[i] !in reg) ==>
      exists i :: 0 <= i < |names| && names[i] !in reg && LastNotFound(reg, names) == names[i]
        && forall j :: i < j < |names| ==> names[j] in reg
    decreases |names|
  {
    if names != [] {
      var init := names[..|names| - 1];
      LastNotFoundIsLast(reg, init);
      if names[|names| - 1] in reg {
        if exists i :: 0 <= i < |names| && names[i] !in reg {
          var i :| 0 <= i < |names| && names[i] !in reg;
          assert init[i] == names[i];
          var i' :| 0 <= i' < |init| && init[i'] !in reg && LastNotFound(reg, init) == init[i']
            && forall j :: i' < j < |init| ==> init[j] in reg;
          assert names[i'] == init[i'];
        }
        if forall i :: 0 <= i < |names| ==> names[i] in reg {
          assert forall i :: 0 <= i < |init| ==> init[i] in reg by {
            forall i | 0 <= i < |init| ensures init[i] in reg {
              assert init[i] == names[i];
            }
          }
        }
      }
    }
  }

  /** `checkIfClassesExist(classes)`: try every name, without stopping at a
      failure; each failure overwrites the recorded name. */
  method CheckIfClassesExist(reg: Registry, classes: seq<string>) returns (c: Check)
    ensures c.pass <==> forall i :: 0 <= i < |classes| ==> classes[i] in reg
    ensures c.error == "Class not found: " + LastNotFound(reg, classes)
  {
    var allClassesFound := true;
    var notFoundName := "";
    var i := 0;
    while i < |classes|
      invariant 0 <= i <= |classes|
      invariant allClassesFound <==> forall j :: 0 <= j < i ==> classes[j] in reg
      invariant notFoundName == LastNotFound(reg, classes[..i])
    {
      var k := Resolve(reg, classes[i]);
      if k.Failure? {
        allClassesFound := false;
        notFoundName := classes[i];
      }
      assert classes[..i + 1][..i] == classes[..i];
      i := i + 1;
    }
    assert classes[..i] == classes;
    c := Check(allClassesFound, "Class not found: " + notFoundName);
  }

  // ---------------------------------------------------------------------
  // Checks over two resolved classes

  /** The first class that does not load, in the order the helpers load them. */
  function FirstMissing(reg: Registry, name1: string, name2: string): string
    requires name1 !in reg || name2 !in reg
  {
    if name1 !in reg then name1 else name2
  }

  /** `checkCommonParent(name1, name2)`: passes iff the classes share no
      supertype; a name that does not load makes it throw. */
  function CheckCommonParent(reg: Registry, name1: string, name2: string): (r: Result<Check>)
    requires name1 in reg && name2 in reg ==> reg[name1].superclass.Some?
    ensures r.Failure? <==> name1 !in reg || name2 !in reg
    ensures r.Failure? ==> r.error == ClassNotFound(FirstMissing(reg, name1, name2))
    ensures r.Success? ==> r.value.pass == !Kelas.ShareCommonSupertypeWith(reg[name1], reg[name2])
    ensures r.Success? ==> r.value.error == name1 + " & " + name2 + " do not have common parent."
  {
    match Resolve(reg, name1)
    case Failure(e) => Failure(e)
    case Success(k1) =>
      match Resolve(reg, name2)
      case Failure(e) => Failure(e)
      case Success(k2) =>
        var pass := !Kelas.ShareCommonSupertypeWith(k1, k2);
        Success(Check(pass, name1 + " & " + name2 + " do not have common parent."))
  }

  /** `checkChildOf(child, parent)`: passes iff `doesExtend` holds. */
  function CheckChildOf(reg: Registry, child: string, parent: string): (r: Result<Check>)
    requires child in reg && parent in reg ==> reg[child].superclass.Some?
    ensures r.Failure? <==> child !in reg || parent !in reg
    ensures r.Failure? ==> r.error == ClassNotFound(FirstMissing(reg, child, parent))
    ensures r.Success? ==> r.value.pass == Kelas.DoesExtend(reg[child], reg[parent])
    ensures r.Success? ==> r.value.error == child + " does not inherit from " + parent + "."
  {
    match Resolve(reg, child)
    case Failure(e) => Failure(e)
    case Success(kChild) =>
      match Resolve(reg, parent)
      case Failure(e) => Failure(e)
      case Success(kParent) =>
        var isChildOf := Kelas.DoesExtend(kChild, kParent);
        Success(Check(isChildOf, child + " does not inherit from " + parent + "."))
  }

  /** `mustNotHaveOnlyInterfaceAsParent(name1, name2)`: passes iff the
      common-interface list and the common-supertype list differ in length. */
  function MustNotHaveOnlyInterfaceAsParent(reg: Registry, name1: string, name2: string): (r: Result<Check>)
    requires name1 in reg && name2 in reg ==> reg[name1].superclass.Some?
    ensures r.Failure? <==> name1 !in reg || name2 !in reg
    ensures r.Failure? ==> r.error == ClassNotFound(FirstMissing(reg, name1, name2))
    ensures r.Success? ==> r.value.error == name1 + " and " + name2 + " only have common interface."
  {
    match Resolve(reg, name1)
    case Failure(e) => Failure(e)
    case Success(k1) =>
      match Resolve(reg, name2)
      case Failure(e) => Failure(e)
      case Success(k2) =>
        var foundClass :=
          if |Kelas.CommonInterfaces(k1.interfaces, k2.interfaces)| == |Kelas.CommonSupertypes(k1, k2)|
          then false else true;
        Success(Check(foundClass, name1 + " and " + name2 + " only have common interface."))
  }

  // ---------------------------------------------------------------------
  // What the checks mean

  /** `checkCommonParent` passes iff the two classes share neither a
      superclass other than `Object` nor a declared interface. */
  lemma CheckCommonParentPasses(reg: Registry, name1: string, name2: string)
    requires name1 in reg && name2 in reg && reg[name1].superclass.Some?
    ensures CheckCommonParent(reg, name1, name2).value.pass <==>
      !Kelas.SharesSuperclass(reg[name1], reg[name2]) &&
      forall x :: x in reg[name1].interfaces ==> x !in reg[name2].interfaces
  {
    Kelas.ShareCommonSupertypeIff(reg[name1], reg[name2]);
  }

  /** `checkChildOf` passes only for a direct superclass other than `Object`. */
  lemma CheckChildOfPasses(reg: Registry, child: string, parent: string)
    requires child in reg && parent in reg && reg[child].superclass.Some?
    ensures CheckChildOf(reg, child, parent).value.pass <==>
      reg[child].superclass == Some(reg[parent].id) && reg[parent].id != ObjectId
  {
  }

  /** `mustNotHaveOnlyInterfaceAsParent` passes iff the classes share a
      superclass other than `Object`, whatever interfaces they have. */
  lemma MustNotHaveOnlyInterfaceAsParentPasses(reg: Registry, name1: string, name2: string)
    requires name1 in reg && name2 in reg && reg[name1].superclass.Some?
    ensures MustNotHaveOnlyInterfaceAsParent(reg, name1, name2).value.pass <==>
      Kelas.SharesSuperclass(reg[name1], reg[name2])
  {
    Kelas.CommonSupertypesShape(reg[name1], reg[name2]);
  }

  /** Both names are loaded before any superclass is read, so a second name
      that does not load is reported even when the first class has no
      superclass (an interface or `Object`). */
  lemma SecondNameMissing(reg: Registry, name1: string, name2: string)
    requires name1 in reg && name2 !in reg
    ensures CheckCommonParent(reg, name1, name2) == Failure(ClassNotFound(name2))
    ensures CheckChildOf(reg, name1, name2) == Failure(ClassNotFound(name2))
    ensures MustNotHaveOnlyInterfaceAsParent(reg, name1, name2) == Failure(ClassNotFound(name2))
  {
  }

  // ---------------------------------------------------------------------
  // Worked cases

  /** `Dog extends Animal implements Comparable`, `Cat extends Animal
      implements Serializable`, `Robot implements Comparable`. */
  const AnimalClass := ClassInfo("Animal", {Abstract}, Some(ObjectId), [], [], [], [])
  const DogClass := ClassInfo("Dog", {}, Some("Animal"), ["Comparable"], [], [], [])
  const CatClass := ClassInfo("Cat", {}, Some("Animal"), ["Serializable"], [], [], [])
  const RobotClass := ClassInfo("Robot", {}, Some(ObjectId), ["Comparable"], [], [], [])
  const ObjectClass := ClassInfo(ObjectId, {Public}, None, [], [], [], [])

  function Zoo(): Registry {
    map[
      "Animal" := AnimalClass,
      "Dog" := DogClass,
      "Cat" := CatClass,
      "Robot" := RobotClass,
      ObjectId := ObjectClass
    ]
  }

  /** Dog and Cat share exactly `Animal`. */
  lemma ZooDogCatSupertypes()
    ensures Kelas.CommonSupertypes(DogClass, CatClass) == ["Animal"]
  {
    assert Kelas.Matches("Comparable", ["Serializable"]) == [] by {
      assert ["Serializable"][..0] == [];
    }
    assert Kelas.CommonInterfaces(["Comparable"], ["Serializable"]) == [] by {
      assert ["Comparable"][..0] == [];
    }
  }

  /** So `checkCommonParent` fails them. */
  lemma ZooDogCat()
    ensures CheckCommonParent(Zoo(), "Dog", "Cat") ==
      Success(Check(false, "Dog" + " & " + "Cat" + " do not have common parent."))
  {
    ZooDogCatSupertypes();
    assert Zoo()["Dog"] == DogClass && Zoo()["Cat"] == CatClass;
  }

  /** Dog and Robot share only `Comparable`: Robot extends `Object`. */
  lemma ZooDogRobotSupertypes()
    ensures Kelas.CommonSupertypes(DogClass, RobotClass) == ["Comparable"]
    ensures !Kelas.SharesSuperclass(DogClass, RobotClass)
  {
    assert Kelas.Matches("Comparable", ["Comparable"]) == ["Comparable"] by {
      assert ["Comparable"][..0] == [];
    }
    assert Kelas.CommonInterfaces(["Comparable"], ["Comparable"]) == ["Comparable"] by {
      assert ["Comparable"][..0] == [];
    }
  }

  /** Dog and Robot share only an interface, so the interface-only rule fails them. */
  lemma ZooDogRobot()
    ensures MustNotHaveOnlyInterfaceAsParent(Zoo(), "Dog", "Robot").value.pass == false
  {
    ZooDogRobotSupertypes();
    assert Zoo()["Dog"] == DogClass && Zoo()["Robot"] == RobotClass;
    MustNotHaveOnlyInterfaceAsParentPasses(Zoo(), "Dog", "Robot");
  }

  /** Dog extends Animal but not Object; an unknown parent fails to load,
      also for `Object`, which has no superclass. */
  lemma ZooChildOf()
    ensures CheckChildOf(Zoo(), "Dog", "Animal").value.pass
    ensures !CheckChildOf(Zoo(), "Dog", ObjectId).value.pass
    ensures CheckChildOf(Zoo(), "Dog", "Wolf") == Failure(ClassNotFound("Wolf"))
    ensures CheckChildOf(Zoo(), ObjectId, "Wolf") == Failure(ClassNotFound("Wolf"))
  {
  }
}
