/** `Kelas`, the wrapper around one class that assignment checks ask structural
    questions of. A Kelas holds nothing but the class it wraps, so each query
    here takes that class (`k`, Java's `this.c`) as its first argument. Where
    the Java code calls `this.c.getSuperclass().equals(...)` it would throw on
    a class without superclass (an interface, `Object`); such queries
    require `k.superclass.Some?`. The other class's superclass may be absent,
    as `x.equals(null)` is simply false. */
module Kelas {
  import Seqs
  import opened ClassMeta
  import KelasConstructors

  /** The class `k` extends, where it has one. */
  function Super(k: ClassInfo): ClassId
    requires k.superclass.Some?
  {
    k.superclass.value
  }

  // ---------------------------------------------------------------------
  // Identity and modifiers

  /** `equals(k2)`: the wrapped classes are the same class; declared
      members play no part. */
  predicate Equals(k: ClassInfo, k2: ClassInfo) {
    k.id == k2.id
  }

  /** `equals` is an equivalence that ignores the modifiers, supertypes and
      declared members. */
  lemma EqualsIsEquivalence(a: ClassInfo, b: ClassInfo, c: ClassInfo)
    ensures Equals(a, a)
    ensures Equals(a, b) <==> Equals(b, a)
    ensures Equals(a, b) && Equals(b, c) ==> Equals(a, c)
    ensures a.id == b.id ==> Equals(a, b)
  {
  }

  predicate IsAbstract(k: ClassInfo) { Abstract in k.mods }

  predicate IsInterface(k: ClassInfo) { Interface in k.mods }

  // ---------------------------------------------------------------------
  // doesExtend, doesImplement, commonParent

  /** `doesExtend(parent)`: false for a class that extends `Object`
      directly, otherwise whether its superclass is `parent`. */
  function DoesExtend(k: ClassInfo, parent: ClassInfo): (r: bool)
    requires k.superclass.Some?
    ensures r <==> Super(k) != ObjectId && Super(k) == parent.id
    ensures parent.id == ObjectId ==> !r
  {
    if Super(k) == ObjectId then false
    else Super(k) == parent.id
  }

  /** The reference definition of `doesImplement`: false for a class that
      extends `Object` directly, otherwise whether `parentInterface` is
      among its declared interfaces. */
  predicate Implements(k: ClassInfo, parentInterface: ClassInfo)
    requires k.superclass.Some?
  {
    Super(k) != ObjectId && parentInterface.id in k.interfaces
  }

  /** `doesImplement(parentInterface)`: the loop over `getInterfaces()` with
      an early return. */
  method DoesImplement(k: ClassInfo, parentInterface: ClassInfo) returns (r: bool)
    requires k.superclass.Some?
    ensures r == Implements(k, parentInterface)
  {
    if Super(k) == ObjectId {
      return false;
    }
    var i := 0;
    while i < |k.interfaces|
      invariant 0 <= i <= |k.interfaces|
      invariant parentInterface.id !in k.interfaces[..i]
    {
      if k.interfaces[i] == parentInterface.id {
        return true;
      }
      i := i + 1;
    }
    assert k.interfaces[..i] == k.interfaces;
    return false;
  }

  /** `doesImplement` as its comment and name intend: whether the interface
      is declared, whatever the superclass. */
  method DoesImplementCorrected(k: ClassInfo, parentInterface: ClassInfo) returns (r: bool)
    ensures r <==> parentInterface.id in k.interfaces
  {
    var i := 0;
    while i < |k.interfaces|
      invariant 0 <= i <= |k.interfaces|
      invariant parentInterface.id !in k.interfaces[..i]
    {
      if k.interfaces[i] == parentInterface.id {
        return true;
      }
      i := i + 1;
    }
    assert k.interfaces[..i] == k.interfaces;
    return false;
  }

  /** `commonParent(that)`: plain equality of superclasses; unlike the other
      relations it does not set `Object` apart. */
  function CommonParent(k: ClassInfo, that: ClassInfo): (r: bool)
    requires k.superclass.Some?
    ensures r <==> that.superclass.Some? && Super(that) == Super(k)
    ensures SharesSuperclass(k, that) <==> r && Super(k) != ObjectId
  {
    k.superclass == that.superclass
  }

  // ---------------------------------------------------------------------
  // Common interfaces and common supertypes

  /** What the inner loop of `getCommonInterfacesWith` adds for one interface
      `x` of `this`: one copy of `x` per occurrence of `x` in `ys`. */
  function Matches(x: ClassId, ys: seq<ClassId>): seq<ClassId>
    decreases |ys|
  {
    if ys == [] then []
    else Matches(x, ys[..|ys| - 1]) + (if ys[|ys| - 1] == x then [x] else [])
  }

  /** The list `getCommonInterfacesWith` builds: for each interface of
      `this` in declaration order, its matches among the interfaces of `that`. */
  function CommonInterfaces(xs: seq<ClassId>, ys: seq<ClassId>): seq<ClassId>
    decreases |xs|
  {
    if xs == [] then []
    else CommonInterfaces(xs[..|xs| - 1], ys) + Matches(xs[|xs| - 1], ys)
  }

  /** The inner loop of `getCommonInterfacesWith`: append `x` once for each
      entry of `ys` equal to it. */
  method AppendMatches(acc: seq<ClassId>, x: ClassId, ys: seq<ClassId>) returns (list: seq<ClassId>)
    ensures list == acc + Matches(x, ys)
  {
    list := acc;
    var j := 0;
    while j < |ys|
      invariant 0 <= j <= |ys|
      invariant list == acc + Matches(x, ys[..j])
    {
      if x == ys[j] {
        list := list + [x];
      }
      assert ys[..j + 1][..j] == ys[..j];
      j := j + 1;
    }
    assert ys[..j] == ys;
  }

  /** `getCommonInterfacesWith(that)`: the two nested loops over the
      declared interfaces, appending on every equal pair; the inner loop is
      `AppendMatches`. */
  method GetCommonInterfacesWith(k: ClassInfo, that: ClassInfo) returns (list: seq<ClassId>)
    ensures list == CommonInterfaces(k.interfaces, that.interfaces)
  {
    var xs, ys := k.interfaces, that.interfaces;
    list := [];
    var i := 0;
    while i < |xs|
      invariant 0 <= i <= |xs|
      invariant list == CommonInterfaces(xs[..i], ys)
    {
      list := AppendMatches(list, xs[i], ys);
      assert xs[..i + 1][..i] == xs[..i];
      i := i + 1;
    }
    assert xs[..i] == xs;
  }

  /** Both classes declare the same superclass and it is not `Object`. */
  predicate SharesSuperclass(k: ClassInfo, that: ClassInfo)
    requires k.superclass.Some?
  {
    k.superclass == that.superclass && Super(k) != ObjectId
  }

  /** The list `getCommonSupertypeWith` builds: the shared superclass, if
      any, first, then the common interfaces. */
  function CommonSupertypes(k: ClassInfo, that: ClassInfo): seq<ClassId>
    requires k.superclass.Some?
  {
    (if SharesSuperclass(k, that) then [Super(k)] else [])
      + CommonInterfaces(k.interfaces, that.interfaces)
  }

  /** `getCommonSupertypeWith(that)`: add the shared superclass then `addAll`
      of the common interfaces. */
  method GetCommonSupertypeWith(k: ClassInfo, that: ClassInfo) returns (list: seq<ClassId>)
    requires k.superclass.Some?
    ensures list == CommonSupertypes(k, that)
  {
    list := [];
    if k.superclass == that.superclass && k.superclass != Some(ObjectId) {
      list := list + [Super(k)];
    }
    var common := GetCommonInterfacesWith(k, that);
    list := list + common;
  }

  /** `shareCommonSupertypeWith(that)`: the common-supertype list is not empty. */
  function ShareCommonSupertypeWith(k: ClassInfo, that: ClassInfo): (r: bool)
    requires k.superclass.Some?
    ensures r <==> CommonSupertypes(k, that) != []
  {
    |CommonSupertypes(k, that)| > 0
  }

  // ---------------------------------------------------------------------
  // Properties of the common-interface and common-supertype lists

  /** The matches of `x` are `x`, as many times as `ys` declares it. */
  lemma {:induction false} MatchesCount(x: ClassId, ys: seq<ClassId>, z: ClassId)
    ensures multiset(Matches(x, ys))[z] == if z == x then multiset(ys)[x] else 0
    decreases |ys|
  {
    if ys != [] {
      var init := ys[..|ys| - 1];
      MatchesCount(x, init, z);
      assert ys == init + [ys[|ys| - 1]];
    }
  }

  /** `getCommonInterfacesWith` lists each interface z exactly
      (occurrences of z in `this`) times (occurrences of z in `that`) times. */
  lemma CommonInterfacesCount(xs: seq<ClassId>, ys: seq<ClassId>, z: ClassId)
    ensures multiset(CommonInterfaces(xs, ys))[z] == multiset(xs)[z] * multiset(ys)[z]
  {
    CommonInterfacesCountSum(xs, ys, z);
    TimesIsProduct(multiset(xs)[z], multiset(ys)[z]);
  }

  /** `a` copies of `c` added up; the induction in `CommonInterfacesCountSum`
      goes through this sum so that it stays linear. */
  function Times(a: nat, c: nat): nat
    decreases a
  {
    if a == 0 then 0 else Times(a - 1, c) + c
  }

  lemma {:induction false} TimesIsProduct(a: nat, c: nat)
    ensures Times(a, c) == a * c
    decreases a
  {
    if a != 0 {
      TimesIsProduct(a - 1, c);
    }
  }

  /** Every interface `x` of `this` that equals `z` adds `z`'s count in `that`. */
  lemma {:induction false} CommonInterfacesCountSum(xs: seq<ClassId>, ys: seq<ClassId>, z: ClassId)
    ensures multiset(CommonInterfaces(xs, ys))[z] == Times(multiset(xs)[z], multiset(ys)[z])
    decreases |xs|
  {
    if xs != [] {
      var init, last := xs[..|xs| - 1], xs[|xs| - 1];
      CommonInterfacesCountSum(init, ys, z);
      CommonInterfacesStepCount(xs, ys, z);
      var a, c := multiset(init)[z], multiset(ys)[z];
      if z == last {
        assert multiset(xs)[z] == a + 1;
        assert Times(a + 1, c) == Times(a, c) + c;
      } else {
        assert multiset(xs)[z] == a;
      }
    }
  }

  /** Counting step of `CommonInterfacesCount`: the last interface of
      `this` adds its own count in `that` for `z` equal to it, and nothing
      for any other `z`. */
  lemma CommonInterfacesStepCount(xs: seq<ClassId>, ys: seq<ClassId>, z: ClassId)
    requires xs != []
    ensures multiset(xs)[z] == multiset(xs[..|xs| - 1])[z] + (if z == xs[|xs| - 1] then 1 else 0)
    ensures multiset(CommonInterfaces(xs, ys))[z]
         == multiset(CommonInterfaces(xs[..|xs| - 1], ys))[z]
          + (if z == xs[|xs| - 1] then multiset(ys)[z] else 0)
  {
    assert xs == xs[..|xs| - 1] + [xs[|xs| - 1]];
    MatchesCount(xs[|xs| - 1], ys, z);
  }

  /** An interface is common iff both classes declare it. */
  lemma CommonInterfacesMembers(xs: seq<ClassId>, ys: seq<ClassId>)
    ensures forall z :: z in CommonInterfaces(xs, ys) <==> z in xs && z in ys
  {
    forall z ensures z in CommonInterfaces(xs, ys) <==> z in xs && z in ys {
      CommonInterfacesCount(xs, ys, z);
      var a, c := multiset(xs)[z], multiset(ys)[z];
      assert a * c > 0 <==> a > 0 && c > 0;
    }
  }

  /** Swapping the classes can reorder the common interfaces but keeps each
      with the same multiplicity, hence also the same set. */
  lemma CommonInterfacesSwap(xs: seq<ClassId>, ys: seq<ClassId>)
    ensures multiset(CommonInterfaces(xs, ys)) == multiset(CommonInterfaces(ys, xs))
    ensures forall z :: z in CommonInterfaces(xs, ys) <==> z in CommonInterfaces(ys, xs)
  {
    forall z ensures multiset(CommonInterfaces(xs, ys))[z] == multiset(CommonInterfaces(ys, xs))[z] {
      CommonInterfacesCount(xs, ys, z);
      CommonInterfacesCount(ys, xs, z);
    }
    CommonInterfacesMembers(xs, ys);
    CommonInterfacesMembers(ys, xs);
  }

  predicate NoDuplicates(ys: seq<ClassId>) {
    forall i, j :: 0 <= i < j < |ys| ==> ys[i] != ys[j]
  }

  /** Declaration in `ys`, as a stage predicate. */
  function DeclaredIn(ys: seq<ClassId>): ClassId -> bool {
    x => x in ys
  }

  lemma {:induction false} MatchesNoDuplicates(x: ClassId, ys: seq<ClassId>)
    requires NoDuplicates(ys)
    ensures Matches(x, ys) == if x in ys then [x] else []
    decreases |ys|
  {
    if ys != [] {
      var init, last := ys[..|ys| - 1], ys[|ys| - 1];
      MatchesNoDuplicates(x, init);
      assert ys == init + [last];
      if last == x {
        assert x !in init;
      }
    }
  }

  /** A class never declares an interface twice; then the common interfaces
      are exactly the interfaces of `this` that `that` declares too, in the
      order `this` declares them. */
  lemma {:induction false} CommonInterfacesFollowThisOrder(xs: seq<ClassId>, ys: seq<ClassId>)
    requires NoDuplicates(ys)
    ensures CommonInterfaces(xs, ys) == Seqs.Filter(xs, DeclaredIn(ys))
    decreases |xs|
  {
    if xs != [] {
      var init, last := xs[..|xs| - 1], xs[|xs| - 1];
      CommonInterfacesFollowThisOrder(init, ys);
      MatchesNoDuplicates(last, ys);
      assert xs == init + [last];
      Seqs.FilterConcat(init, [last], DeclaredIn(ys));
    }
  }

  /** The supertype list is the shared superclass (if any) followed by exactly
      the common interfaces; if `this` extends `Object` it has no class entry. */
  lemma CommonSupertypesShape(k: ClassInfo, that: ClassInfo)
    requires k.superclass.Some?
    ensures var cs, n := CommonSupertypes(k, that), if SharesSuperclass(k, that) then 1 else 0;
      && |cs| == n + |CommonInterfaces(k.interfaces, that.interfaces)|
      && (SharesSuperclass(k, that) ==> cs[0] == Super(k))
      && cs[n..] == CommonInterfaces(k.interfaces, that.interfaces)
    ensures Super(k) == ObjectId ==> CommonSupertypes(k, that) == CommonInterfaces(k.interfaces, that.interfaces)
  {
  }

  /** `shareCommonSupertypeWith` holds iff the classes share a superclass
      other than `Object` or declare a common interface. */
  lemma ShareCommonSupertypeIff(k: ClassInfo, that: ClassInfo)
    requires k.superclass.Some?
    ensures ShareCommonSupertypeWith(k, that) <==>
      SharesSuperclass(k, that) || exists x :: x in k.interfaces && x in that.interfaces
  {
    CommonInterfacesMembers(k.interfaces, that.interfaces);
    var ci := CommonInterfaces(k.interfaces, that.interfaces);
    if ci != [] {
      assert ci[0] in ci;
    }
  }

  /** Swapping the classes keeps the class entry and the interface entries,
      up to order. */
  lemma CommonSupertypesSwap(k: ClassInfo, that: ClassInfo)
    requires k.superclass.Some? && that.superclass.Some?
    ensures multiset(CommonSupertypes(k, that)) == multiset(CommonSupertypes(that, k))
    ensures ShareCommonSupertypeWith(k, that) == ShareCommonSupertypeWith(that, k)
  {
    CommonInterfacesSwap(k.interfaces, that.interfaces);
  }

  /** `commonParent` counts `Object`: two classes that both extend `Object`
      have a common parent, but no common supertype entry. */
  lemma CommonParentCountsObject(k: ClassInfo, that: ClassInfo)
    requires k.superclass == Some(ObjectId) && that.superclass == Some(ObjectId)
    ensures CommonParent(k, that) && !SharesSuperclass(k, that)
  {
  }

  /** The relations look only at the identity of the other class. */
  lemma RelationsRespectEquals(k: ClassInfo, p: ClassInfo, q: ClassInfo)
    requires k.superclass.Some? && Equals(p, q)
    ensures DoesExtend(k, p) == DoesExtend(k, q)
    ensures Implements(k, p) == Implements(k, q)
  {
  }

  /** `doesImplement` as written rejects a declared interface whenever the
      class extends `Object` directly: `class Robot implements Comparable`. */
  lemma DoesImplementMissesDeclaredInterface()
    ensures var robot := ClassInfo("Robot", {}, Some(ObjectId), ["Comparable"], [], [], []);
      var comparable := ClassInfo("Comparable", {Interface, Abstract}, None, [], [], [], []);
      comparable.id in robot.interfaces && !Implements(robot, comparable)
  {
  }

  // ---------------------------------------------------------------------
  // Subclasses

  /** `getSubclasses()`: the enumerated classes whose superclass is `k`, in
      enumeration order. The enumeration (`KelasUtils.getClasses`, a
      class-path scan) is a parameter; its failure propagates. */
  function GetSubclasses(k: ClassInfo, enumeration: Result<seq<ClassInfo>>): (r: Result<seq<ClassInfo>>)
    ensures r.Failure? <==> enumeration.Failure?
    ensures r.Failure? ==> r.error == enumeration.error
    ensures r.Success? ==> forall c :: c in r.value <==> c in enumeration.value && c.superclass == Some(k.id)
    ensures r.Success? ==>
      forall c :: multiset(r.value)[c] == (if c.superclass == Some(k.id) then multiset(enumeration.value)[c] else 0)
    ensures r.Success? ==> Seqs.IsSubsequence(r.value, enumeration.value)
  {
    match enumeration
    case Failure(e) => Failure(e)
    case Success(all) =>
      var p := (c: ClassInfo) => c.superclass == Some(k.id);
      Seqs.FilterIsSubsequence(all, p);
      Seqs.FilterCounts(all, p);
      Success(Seqs.Filter(all, p))
  }

  // ---------------------------------------------------------------------
  // Member pipelines

  /** `getFields()`: a fresh stream of all declared fields, in declaration order. */
  method GetFields(k: ClassInfo) returns (s: KelasConstructors.MemberStream)
    ensures fresh(s) && s.Valid() && !s.spent
    ensures s.stream == k.fields && s.original == k.fields
  {
    s := new KelasConstructors.MemberStream(k.fields);
  }

  /** `getMethods()`: a fresh stream of all declared methods, in declaration order. */
  method GetMethods(k: ClassInfo) returns (s: KelasConstructors.MemberStream)
    ensures fresh(s) && s.Valid() && !s.spent
    ensures s.stream == k.methods && s.original == k.methods
  {
    s := new KelasConstructors.MemberStream(k.methods);
  }

  /** `getConstructors()`: a fresh stream of all declared constructors, in declaration order. */
  method GetConstructors(k: ClassInfo) returns (s: KelasConstructors.MemberStream)
    ensures fresh(s) && s.Valid() && !s.spent
    ensures s.stream == k.constructors && s.original == k.constructors
  {
    s := new KelasConstructors.MemberStream(k.constructors);
  }
}
