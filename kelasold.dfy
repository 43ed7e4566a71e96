/** `KelasOld`, the earlier wrapper that `Kelas` superseded, over the same
    class values. It holds the field-visibility lists, the constant-value
    lookup, the method queries, and older versions of the supertype
    relations whose meaning differs from `Kelas`. */
module KelasOld {
  import Seqs
  import opened ClassMeta
  import Kelas

  // ---------------------------------------------------------------------
  // Field lists

  /** `getAllFields()` */
  function GetAllFields(k: ClassInfo): (r: seq<Member>)
    ensures r == k.fields
  {
    k.fields
  }

  /** `getPublicFields()` */
  function GetPublicFields(k: ClassInfo): (r: seq<Member>)
    ensures forall f :: f in r <==> f in k.fields && HasMod(f, Public)
    ensures forall f :: multiset(r)[f] == (if HasMod(f, Public) then multiset(k.fields)[f] else 0)
    ensures Seqs.IsSubsequence(r, k.fields)
  {
    Seqs.FilterIsSubsequence(k.fields, (f: Member) => HasMod(f, Public));
    Seqs.FilterCounts(k.fields, (f: Member) => HasMod(f, Public));
    Seqs.Filter(k.fields, (f: Member) => HasMod(f, Public))
  }

  function ContainsPublicFields(k: ClassInfo): (r: bool)
    ensures r <==> exists f :: f in k.fields && HasMod(f, Public)
  {
    var fs := GetPublicFields(k);
    assert fs != [] ==> fs[0] in fs;
    fs != []
  }

  /** `getDefaultFields()`: three successive stages that drop the public, the
      private and the protected fields. */
  function GetDefaultFields(k: ClassInfo): (r: seq<Member>)
    ensures forall f :: f in r <==>
      f in k.fields && !HasMod(f, Public) && !HasMod(f, Private) && !HasMod(f, Protected)
    ensures Seqs.IsSubsequence(r, k.fields)
  {
    var s1 := Seqs.Filter(k.fields, (f: Member) => !HasMod(f, Public));
    var s2 := Seqs.Filter(s1, (f: Member) => !HasMod(f, Private));
    var s3 := Seqs.Filter(s2, (f: Member) => !HasMod(f, Protected));
    Seqs.FilterIsSubsequence(k.fields, (f: Member) => !HasMod(f, Public));
    Seqs.FilterIsSubsequence(s1, (f: Member) => !HasMod(f, Private));
    Seqs.FilterIsSubsequence(s2, (f: Member) => !HasMod(f, Protected));
    Seqs.SubsequenceTrans(s3, s2, s1);
    Seqs.SubsequenceTrans(s3, s1, k.fields);
    s3
  }

  function ContainsDefaultFields(k: ClassInfo): (r: bool)
    ensures r <==> exists f :: f in k.fields && !HasMod(f, Public) && !HasMod(f, Private) && !HasMod(f, Protected)
  {
    var fs := GetDefaultFields(k);
    assert fs != [] ==> fs[0] in fs;
    fs != []
  }

  /** `getPrivateFields()`: the private fields that are neither static nor
      final. Every static and every final private field is left out, not
      only the `private static final` constants its comment names. */
  function GetPrivateFields(k: ClassInfo): (r: seq<Member>)
    ensures forall f :: f in r <==>
      f in k.fields && HasMod(f, Private) && !HasMod(f, Static) && !HasMod(f, Final)
    ensures Seqs.IsSubsequence(r, k.fields)
  {
    var s1 := Seqs.Filter(k.fields, (f: Member) => HasMod(f, Private));
    var s2 := Seqs.Filter(s1, (f: Member) => !HasMod(f, Static));
    var s3 := Seqs.Filter(s2, (f: Member) => !HasMod(f, Final));
    Seqs.FilterIsSubsequence(k.fields, (f: Member) => HasMod(f, Private));
    Seqs.FilterIsSubsequence(s1, (f: Member) => !HasMod(f, Static));
    Seqs.FilterIsSubsequence(s2, (f: Member) => !HasMod(f, Final));
    Seqs.SubsequenceTrans(s3, s2, s1);
    Seqs.SubsequenceTrans(s3, s1, k.fields);
    s3
  }

  function ContainsPrivateFields(k: ClassInfo): (r: bool)
    ensures r <==> exists f :: f in k.fields && HasMod(f, Private) && !HasMod(f, Static) && !HasMod(f, Final)
  {
    var fs := GetPrivateFields(k);
    assert fs != [] ==> fs[0] in fs;
    fs != []
  }

  /** `getDefaultFields()` keeps each package-access field as often as it is
      declared. */
  lemma DefaultFieldsCount(k: ClassInfo, f: Member)
    ensures multiset(GetDefaultFields(k))[f] ==
      (if !HasMod(f, Public) && !HasMod(f, Private) && !HasMod(f, Protected) then multiset(k.fields)[f] else 0)
  {
    var s1 := Seqs.Filter(k.fields, (f: Member) => !HasMod(f, Public));
    var s2 := Seqs.Filter(s1, (f: Member) => !HasMod(f, Private));
    Seqs.FilterCount(k.fields, (f: Member) => !HasMod(f, Public), f);
    Seqs.FilterCount(s1, (f: Member) => !HasMod(f, Private), f);
    Seqs.FilterCount(s2, (f: Member) => !HasMod(f, Protected), f);
  }

  /** `getPrivateFields()` keeps each private non-static non-final field as
      often as it is declared. */
  lemma PrivateFieldsCount(k: ClassInfo, f: Member)
    ensures multiset(GetPrivateFields(k))[f] ==
      (if HasMod(f, Private) && !HasMod(f, Static) && !HasMod(f, Final) then multiset(k.fields)[f] else 0)
  {
    var s1 := Seqs.Filter(k.fields, (f: Member) => HasMod(f, Private));
    var s2 := Seqs.Filter(s1, (f: Member) => !HasMod(f, Static));
    Seqs.FilterCount(k.fields, (f: Member) => HasMod(f, Private), f);
    Seqs.FilterCount(s1, (f: Member) => !HasMod(f, Static), f);
    Seqs.FilterCount(s2, (f: Member) => !HasMod(f, Final), f);
  }

  /** A field that is `static final` with the given visibility. */
  predicate IsConstant(f: Member, visibility: Modifier) {
    HasMod(f, visibility) && HasMod(f, Static) && HasMod(f, Final)
  }

  /** `getPublicConstants()` */
  function GetPublicConstants(k: ClassInfo): (r: seq<Member>)
    ensures forall f :: f in r <==> f in k.fields && IsConstant(f, Public)
    ensures forall f :: multiset(r)[f] == (if IsConstant(f, Public) then multiset(k.fields)[f] else 0)
    ensures Seqs.IsSubsequence(r, k.fields)
  {
    Seqs.FilterIsSubsequence(k.fields, (f: Member) => IsConstant(f, Public));
    Seqs.FilterCounts(k.fields, (f: Member) => IsConstant(f, Public));
    Seqs.Filter(k.fields, (f: Member) => IsConstant(f, Public))
  }

  /** `getPrivateConstants()` */
  function GetPrivateConstants(k: ClassInfo): (r: seq<Member>)
    ensures forall f :: f in r <==> f in k.fields && IsConstant(f, Private)
    ensures forall f :: multiset(r)[f] == (if IsConstant(f, Private) then multiset(k.fields)[f] else 0)
    ensures Seqs.IsSubsequence(r, k.fields)
  {
    Seqs.FilterIsSubsequence(k.fields, (f: Member) => IsConstant(f, Private));
    Seqs.FilterCounts(k.fields, (f: Member) => IsConstant(f, Private));
    Seqs.Filter(k.fields, (f: Member) => IsConstant(f, Private))
  }

  /** `containsConstants()`: only the public constants count. */
  function ContainsConstants(k: ClassInfo): (r: bool)
    ensures r <==> exists f :: f in k.fields && IsConstant(f, Public)
  {
    var fs := GetPublicConstants(k);
    assert fs != [] ==> fs[0] in fs;
    fs != []
  }

  /** No field is both a private field of `getPrivateFields` and a private
      constant, and a private static field that is not final is in neither. */
  lemma PrivateFieldsExcludeStaticAndFinal(k: ClassInfo, f: Member)
    requires f in k.fields && HasMod(f, Private)
    ensures f in GetPrivateFields(k) <==> !HasMod(f, Static) && !HasMod(f, Final)
    ensures f in GetPrivateConstants(k) ==> f !in GetPrivateFields(k)
    ensures HasMod(f, Static) && !HasMod(f, Final) ==> f !in GetPrivateFields(k) && f !in GetPrivateConstants(k)
  {
  }

  // ---------------------------------------------------------------------
  // Constant-value lookup

  /** How a scan decides that a field has the wanted type:
      `DeclaredType` compares `f.getType()` with the type before reading
      (`hasFieldWithTypeValue`, `hasPublicConstantFieldWithTypeValue`), and
      then casts the value with `type.cast`; `RuntimeClass` reads first and
      compares the value's `getClass()` (`hasPrivateConstantFieldWithTypeValue`);
      `DeclaredTypeUnboxed` is `DeclaredType` comparing the value without
      the cast. */
  datatype TypeTest = DeclaredType | RuntimeClass | DeclaredTypeUnboxed

  /** One lookup: the wanted type and value, how fields are read
      (`Field.get(null)`) and how types are compared. */
  datatype Query = Query(t: ClassId, v: Value, read: Member -> ReadResult, test: TypeTest)

  /** What a scan does at one field. */
  datatype Step = Continue | Stop(outcome: Result<bool>)

  function FieldStep(f: Member, q: Query): Step {
    match q.test
    case DeclaredType =>
      if f.declaredType != q.t then Continue
      else (match q.read(f)
        case AccessDenied => Stop(Success(false))
        case Read(x) =>
          if IsPrimitive(q.t) then Stop(Failure(ClassCast(q.t)))
          else if x == q.v then Stop(Success(true))
          else Continue)
    case DeclaredTypeUnboxed =>
      if f.declaredType != q.t then Continue
      else (match q.read(f)
        case AccessDenied => Stop(Success(false))
        case Read(x) => if x == q.v then Stop(Success(true)) else Continue)
    case RuntimeClass =>
      match q.read(f)
      case AccessDenied => Stop(Success(false))
      case Read(x) => if x.cls == q.t && x == q.v then Stop(Success(true)) else Continue
  }

  /** The outcome of scanning `fs` in order: the first field that stops the
      scan decides; without one the answer is false. An `IllegalAccessException`
      stops the scan with false, because the `try` encloses the whole loop. */
  function Scan(fs: seq<Member>, q: Query): Result<bool>
    decreases |fs|
  {
    if fs == [] then Success(false)
    else match FieldStep(fs[0], q)
      case Continue => Scan(fs[1..], q)
      case Stop(outcome) => outcome
  }

  /** The loop shared by the three lookups, with its early returns. */
  method ScanFields(fs: seq<Member>, q: Query) returns (r: Result<bool>)
    ensures r == Scan(fs, q)
  {
    var i := 0;
    while i < |fs|
      invariant 0 <= i <= |fs|
      invariant Scan(fs, q) == Scan(fs[i..], q)
    {
      assert fs[i..][1..] == fs[i + 1..];
      match FieldStep(fs[i], q)
      case Stop(outcome) =>
        return outcome;
      case Continue =>
      i := i + 1;
    }
    return Success(false);
  }

  /** `hasFieldWithTypeValue(type, value)` over all declared fields. */
  method HasFieldWithTypeValue(k: ClassInfo, t: ClassId, v: Value, read: Member -> ReadResult)
    returns (r: Result<bool>)
    ensures r == Scan(k.fields, Query(t, v, read, DeclaredType))
    ensures !IsPrimitive(t) ==> r.Success? && (r.value <==> FoundBeforeAbort(k.fields, t, v, read))
    ensures IsPrimitive(t) ==> r != Success(true)
  {
    var q := Query(t, v, read, DeclaredType);
    r := ScanFields(GetAllFields(k), q);
    if IsPrimitive(t) {
      DeclaredScanOnPrimitiveType(k.fields, q);
    } else {
      DeclaredScanOnReferenceType(k.fields, q);
      UnboxedScanMeaning(k.fields, q.(test := DeclaredTypeUnboxed));
    }
  }

  /** `hasPublicConstantFieldWithTypeValue(type, value)` over the public constants. */
  method HasPublicConstantFieldWithTypeValue(k: ClassInfo, t: ClassId, v: Value, read: Member -> ReadResult)
    returns (r: Result<bool>)
    ensures r == Scan(GetPublicConstants(k), Query(t, v, read, DeclaredType))
    ensures !IsPrimitive(t) ==> r.Success? && (r.value <==> FoundBeforeAbort(GetPublicConstants(k), t, v, read))
    ensures IsPrimitive(t) ==> r != Success(true)
  {
    var fs, q := GetPublicConstants(k), Query(t, v, read, DeclaredType);
    r := ScanFields(fs, q);
    if IsPrimitive(t) {
      DeclaredScanOnPrimitiveType(fs, q);
    } else {
      DeclaredScanOnReferenceType(fs, q);
      UnboxedScanMeaning(fs, q.(test := DeclaredTypeUnboxed));
    }
  }

  /** `hasPrivateConstantFieldWithTypeValue(type, value)` over the private
      constants; `read` is the read after `setAccessible(true)`. */
  method HasPrivateConstantFieldWithTypeValue(k: ClassInfo, t: ClassId, v: Value, read: Member -> ReadResult)
    returns (r: Result<bool>)
    ensures r == Scan(GetPrivateConstants(k), Query(t, v, read, RuntimeClass))
    ensures r.Success? && (r.value <==> FoundBeforeDenied(GetPrivateConstants(k), t, v, read))
  {
    r := ScanFields(GetPrivateConstants(k), Query(t, v, read, RuntimeClass));
    RuntimeClassScanMeaning(GetPrivateConstants(k), Query(t, v, read, RuntimeClass));
  }

  /** `hasFieldWithTypeValue` as intended: the value is compared as read,
      without casting it to a primitive class. */
  method HasFieldWithTypeValueCorrected(k: ClassInfo, t: ClassId, v: Value, read: Member -> ReadResult)
    returns (r: bool)
    ensures r <==> FoundBeforeAbort(k.fields, t, v, read)
  {
    var q := Query(t, v, read, DeclaredTypeUnboxed);
    var res := ScanFields(GetAllFields(k), q);
    UnboxedScanMeaning(k.fields, q);
    r := res.value;
  }

  /** A field of the wanted declared type whose value reads as wanted. */
  predicate DeclaredMatch(f: Member, t: ClassId, v: Value, read: Member -> ReadResult) {
    f.declaredType == t && read(f) == Read(v)
  }

  /** A field of the wanted declared type whose value cannot be read. */
  predicate DeclaredAbort(f: Member, t: ClassId, read: Member -> ReadResult) {
    f.declaredType == t && read(f) == AccessDenied
  }

  /** Some field of the wanted type holds the value and no earlier field of
      that type is unreadable. */
  predicate FoundBeforeAbort(fs: seq<Member>, t: ClassId, v: Value, read: Member -> ReadResult) {
    exists i :: 0 <= i < |fs| && DeclaredMatch(fs[i], t, v, read) && NoAbortBefore(fs, i, t, read)
  }

  predicate NoAbortBefore(fs: seq<Member>, i: int, t: ClassId, read: Member -> ReadResult)
    requires 0 <= i <= |fs|
  {
    forall j :: 0 <= j < i ==> !DeclaredAbort(fs[j], t, read)
  }

  /** The unboxed lookup never throws, and finds the value iff some field of
      the wanted type holds it and no earlier field of that type is unreadable. */
  lemma {:induction false} UnboxedScanMeaning(fs: seq<Member>, q: Query)
    requires q.test == DeclaredTypeUnboxed
    ensures Scan(fs, q).Success?
    ensures Scan(fs, q).value <==> FoundBeforeAbort(fs, q.t, q.v, q.read)
    decreases |fs|
  {
    if fs != [] {
      UnboxedScanMeaning(fs[1..], q);
      var f, rest := fs[0], fs[1..];
      if DeclaredMatch(f, q.t, q.v, q.read) {
        assert NoAbortBefore(fs, 0, q.t, q.read);
      } else if DeclaredAbort(f, q.t, q.read) {
        forall i | 0 <= i < |fs| && DeclaredMatch(fs[i], q.t, q.v, q.read)
          ensures !NoAbortBefore(fs, i, q.t, q.read)
        {
          assert i > 0;
        }
      } else {
        assert Scan(fs, q) == Scan(rest, q);
        if FoundBeforeAbort(fs, q.t, q.v, q.read) {
          var i :| 0 <= i < |fs| && DeclaredMatch(fs[i], q.t, q.v, q.read) && NoAbortBefore(fs, i, q.t, q.read);
          assert i > 0;
          assert rest[i - 1] == fs[i];
          assert NoAbortBefore(rest, i - 1, q.t, q.read) by {
            forall j | 0 <= j < i - 1 ensures !DeclaredAbort(rest[j], q.t, q.read) {
              assert rest[j] == fs[j + 1];
            }
          }
        }
        if FoundBeforeAbort(rest, q.t, q.v, q.read) {
          var i :| 0 <= i < |rest| && DeclaredMatch(rest[i], q.t, q.v, q.read) && NoAbortBefore(rest, i, q.t, q.read);
          assert fs[i + 1] == rest[i];
          assert NoAbortBefore(fs, i + 1, q.t, q.read) by {
            forall j | 0 <= j < i + 1 ensures !DeclaredAbort(fs[j], q.t, q.read) {
              if j > 0 { assert fs[j] == rest[j - 1]; }
            }
          }
        }
      }
    }
  }

  /** For a reference type the lookup as written behaves as the unboxed one,
      so it finds the value iff a field of that type holds it before any
      unreadable field of that type. */
  lemma {:induction false} DeclaredScanOnReferenceType(fs: seq<Member>, q: Query)
    requires q.test == DeclaredType && !IsPrimitive(q.t)
    ensures Scan(fs, q) == Scan(fs, q.(test := DeclaredTypeUnboxed))
    decreases |fs|
  {
    if fs != [] {
      DeclaredScanOnReferenceType(fs[1..], q);
    }
  }

  /** For a primitive type the lookup as written never answers true. */
  lemma {:induction false} DeclaredScanOnPrimitiveType(fs: seq<Member>, q: Query)
    requires q.test == DeclaredType && IsPrimitive(q.t)
    ensures Scan(fs, q) != Success(true)
    decreases |fs|
  {
    if fs != [] {
      DeclaredScanOnPrimitiveType(fs[1..], q);
    }
  }

  /** As written, a lookup for a primitive type throws `ClassCastException`
      at the first field of that type, when that field can be read: a public
      `int` constant `MAX = 10` is never reported, while the unboxed lookup
      finds it. */
  lemma PrimitiveLookupThrows(read: Member -> ReadResult)
    requires read(Member("MAX", {Public, Static, Final}, [], "int")) == Read(Value("java.lang.Integer", "10"))
    ensures var k := ClassInfo("Limits", {Public}, Some(ObjectId), [],
                               [Member("MAX", {Public, Static, Final}, [], "int")], [], []);
      && Scan(k.fields, Query("int", Value("java.lang.Integer", "10"), read, DeclaredType)) == Failure(ClassCast("int"))
      && Scan(k.fields, Query("int", Value("java.lang.Integer", "10"), read, DeclaredTypeUnboxed)) == Success(true)
  {
    var f := Member("MAX", {Public, Static, Final}, [], "int");
    assert IsPrimitive("int");
    assert [f][1..] == [];
  }

  /** The private-constant lookup compares run-time classes instead of
      casting, so the same `int` constant is not found, and nothing throws:
      the boxed value's class is `java.lang.Integer`, not `int`. */
  lemma PrivatePrimitiveLookupAnswersFalse(read: Member -> ReadResult)
    requires read(Member("MAX", {Private, Static, Final}, [], "int")) == Read(Value("java.lang.Integer", "10"))
    ensures var k := ClassInfo("Limits", {Public}, Some(ObjectId), [],
                               [Member("MAX", {Private, Static, Final}, [], "int")], [], []);
      Scan(GetPrivateConstants(k), Query("int", Value("java.lang.Integer", "10"), read, RuntimeClass)) == Success(false)
  {
    var f := Member("MAX", {Private, Static, Final}, [], "int");
    var k := ClassInfo("Limits", {Public}, Some(ObjectId), [], [f], [], []);
    assert GetPrivateConstants(k) == [f] by {
      assert f in GetPrivateConstants(k);
      assert |GetPrivateConstants(k)| <= 1;
    }
    assert [f][1..] == [];
  }

  /** The two declared-type lookups test `f.getType()` before reading, so a
      field of another type is passed over even when it cannot be read. */
  lemma DeclaredScanSkipsOtherTypes(f: Member, fs: seq<Member>, q: Query)
    requires q.test != RuntimeClass && f.declaredType != q.t
    ensures Scan([f] + fs, q) == Scan(fs, q)
  {
    assert ([f] + fs)[1..] == fs;
  }

  /** An unreadable field of the primitive type that comes first ends the
      scan with false, so a readable one after it never reaches the cast. */
  lemma PrimitiveLookupDeniedFirst(read: Member -> ReadResult)
    requires read(Member("A", {Public, Static, Final}, [], "int")) == AccessDenied
    requires read(Member("B", {Public, Static, Final}, [], "int")) == Read(Value("java.lang.Integer", "10"))
    ensures Scan([Member("A", {Public, Static, Final}, [], "int"), Member("B", {Public, Static, Final}, [], "int")],
                 Query("int", Value("java.lang.Integer", "10"), read, DeclaredType)) == Success(false)
  {
  }

  /** A field whose value reads as wanted and whose run-time class is the wanted type. */
  predicate RuntimeMatch(f: Member, t: ClassId, v: Value, read: Member -> ReadResult) {
    read(f) == Read(v) && v.cls == t
  }

  /** Some field holds the value with the wanted run-time class, and every
      earlier field, whatever its type, can be read. */
  predicate FoundBeforeDenied(fs: seq<Member>, t: ClassId, v: Value, read: Member -> ReadResult) {
    exists i :: 0 <= i < |fs| && RuntimeMatch(fs[i], t, v, read) && NoDeniedBefore(fs, i, read)
  }

  predicate NoDeniedBefore(fs: seq<Member>, i: int, read: Member -> ReadResult)
    requires 0 <= i <= |fs|
  {
    forall j :: 0 <= j < i ==> read(fs[j]) != AccessDenied
  }

  /** The private-constant lookup never throws, and finds the value iff some
      field holds it with the wanted run-time class and no earlier field is
      unreadable. */
  lemma {:induction false} RuntimeClassScanMeaning(fs: seq<Member>, q: Query)
    requires q.test == RuntimeClass
    ensures Scan(fs, q).Success?
    ensures Scan(fs, q).value <==> FoundBeforeDenied(fs, q.t, q.v, q.read)
    decreases |fs|
  {
    if fs != [] {
      RuntimeClassScanMeaning(fs[1..], q);
      var f, rest := fs[0], fs[1..];
      if RuntimeMatch(f, q.t, q.v, q.read) {
        assert NoDeniedBefore(fs, 0, q.read);
      } else if q.read(f) == AccessDenied {
        forall i | 0 <= i < |fs| && RuntimeMatch(fs[i], q.t, q.v, q.read)
          ensures !NoDeniedBefore(fs, i, q.read)
        {
          assert i > 0;
        }
      } else {
        assert Scan(fs, q) == Scan(rest, q);
        if FoundBeforeDenied(fs, q.t, q.v, q.read) {
          var i :| 0 <= i < |fs| && RuntimeMatch(fs[i], q.t, q.v, q.read) && NoDeniedBefore(fs, i, q.read);
          assert i > 0;
          assert rest[i - 1] == fs[i];
          assert NoDeniedBefore(rest, i - 1, q.read) by {
            forall j | 0 <= j < i - 1 ensures q.read(rest[j]) != AccessDenied {
              assert rest[j] == fs[j + 1];
            }
          }
        }
        if FoundBeforeDenied(rest, q.t, q.v, q.read) {
          var i :| 0 <= i < |rest| && RuntimeMatch(rest[i], q.t, q.v, q.read) && NoDeniedBefore(rest, i, q.read);
          assert fs[i + 1] == rest[i];
          assert NoDeniedBefore(fs, i + 1, q.read) by {
            forall j | 0 <= j < i + 1 ensures q.read(fs[j]) != AccessDenied {
              if j > 0 { assert fs[j] == rest[j - 1]; }
            }
          }
        }
      }
    }
  }

  /** The private-constant lookup reads every field before looking at its
      type, so an unreadable field of another type still ends the scan. */
  lemma RuntimeClassLookupReadsFirst(fs: seq<Member>, q: Query)
    requires q.test == RuntimeClass && fs != [] && q.read(fs[0]) == AccessDenied
    ensures Scan(fs, q) == Success(false)
  {
  }

  // ---------------------------------------------------------------------
  // Method queries

  /** `getDeclaredMethod(name, paramTypes)`: the first declared method with
      that name and exactly that parameter list, if any. */
  function FindDeclaredMethod(ms: seq<Member>, name: string, params: seq<ClassId>): (r: Option<Member>)
    ensures r.Some? ==> r.value in ms && r.value.name == name && r.value.paramTypes == params
    ensures r.None? <==> forall m :: m in ms ==> !(m.name == name && m.paramTypes == params)
    decreases |ms|
  {
    if ms == [] then None
    else if ms[0].name == name && ms[0].paramTypes == params then Some(ms[0])
    else FindDeclaredMethod(ms[1..], name, params)
  }

  /** `hasPublicMethod(name, paramTypes...)`: such a method is declared and public. */
  function HasPublicMethod(k: ClassInfo, name: string, params: seq<ClassId>): (r: bool)
    ensures r ==> exists m :: m in k.methods && m.name == name && m.paramTypes == params && HasMod(m, Public)
    ensures (forall m :: m in k.methods ==> !(m.name == name && m.paramTypes == params)) ==> !r
  {
    match FindDeclaredMethod(k.methods, name, params)
    case None => false
    case Some(m) => HasMod(m, Public)
  }

  /** When the signature is declared once, `hasPublicMethod` holds iff that
      declaration is public. */
  lemma HasPublicMethodUnique(k: ClassInfo, name: string, params: seq<ClassId>, m: Member)
    requires m in k.methods && m.name == name && m.paramTypes == params
    requires forall m' :: m' in k.methods && m'.name == name && m'.paramTypes == params ==> m' == m
    ensures HasPublicMethod(k, name, params) <==> HasMod(m, Public)
  {
  }

  /** `getMethods()` */
  function GetMethods(k: ClassInfo): (r: seq<Member>)
    ensures r == k.methods
    ensures r != [] <==> HasMethods(k)
  {
    k.methods
  }

  /** `hasAbstractMethods()`: the loop over the declared methods with an early return. */
  method HasAbstractMethods(k: ClassInfo) returns (r: bool)
    ensures r <==> exists i :: 0 <= i < |k.methods| && HasMod(k.methods[i], Abstract)
  {
    var methods := k.methods;
    var i := 0;
    while i < |methods|
      invariant 0 <= i <= |methods|
      invariant forall j :: 0 <= j < i ==> !HasMod(methods[j], Abstract)
    {
      if HasMod(methods[i], Abstract) {
        return true;
      }
      i := i + 1;
    }
    return false;
  }

  /** `hasMethods()` */
  function HasMethods(k: ClassInfo): (r: bool)
    ensures r <==> exists m :: m in k.methods
  {
    assert |k.methods| > 0 ==> k.methods[0] in k.methods;
    |k.methods| > 0
  }

  // ---------------------------------------------------------------------
  // Old supertype relations

  /** Some interface is declared by both classes. */
  predicate SharesInterface(k: ClassInfo, that: ClassInfo) {
    exists i, j :: 0 <= i < |k.interfaces| && 0 <= j < |that.interfaces| && k.interfaces[i] == that.interfaces[j]
  }

  /** The old `shareCommonSupertypeWith(ac)`: false for a class that extends
      `Object` directly, even when it shares an interface; otherwise true iff
      the superclasses are equal or an interface is shared. */
  method ShareCommonSupertypeWith(k: ClassInfo, ac: ClassInfo) returns (r: bool)
    requires k.superclass.Some?
    ensures r <==> Kelas.Super(k) != ObjectId && (k.superclass == ac.superclass || SharesInterface(k, ac))
  {
    if Kelas.Super(k) == ObjectId {
      return false;
    }
    if k.superclass == ac.superclass {
      return true;
    }
    var i := 0;
    while i < |k.interfaces|
      invariant 0 <= i <= |k.interfaces|
      invariant forall i', j :: 0 <= i' < i && 0 <= j < |ac.interfaces| ==> k.interfaces[i'] != ac.interfaces[j]
    {
      var j := 0;
      while j < |ac.interfaces|
        invariant 0 <= j <= |ac.interfaces|
        invariant forall j' :: 0 <= j' < j ==> k.interfaces[i] != ac.interfaces[j']
      {
        if k.interfaces[i] == ac.interfaces[j] {
          return true;
        }
        j := j + 1;
      }
      i := i + 1;
    }
    return false;
  }

  /** The old relation implies the new one; the converse fails for a class
      that extends `Object` and shares an interface. */
  lemma OldShareImpliesNew(k: ClassInfo, ac: ClassInfo)
    requires k.superclass.Some?
    ensures Kelas.Super(k) != ObjectId && (k.superclass == ac.superclass || SharesInterface(k, ac))
      ==> Kelas.ShareCommonSupertypeWith(k, ac)
    ensures Kelas.Super(k) == ObjectId && SharesInterface(k, ac) ==> Kelas.ShareCommonSupertypeWith(k, ac)
  {
    Kelas.ShareCommonSupertypeIff(k, ac);
    if SharesInterface(k, ac) {
      var i, j :| 0 <= i < |k.interfaces| && 0 <= j < |ac.interfaces| && k.interfaces[i] == ac.interfaces[j];
      assert k.interfaces[i] in k.interfaces && k.interfaces[i] in ac.interfaces;
    }
  }

  /** The old `isChildOf(parent)`: false for a class that extends `Object`
      directly, before the parent is even loaded; otherwise the parent is
      loaded (which may throw) and must be the superclass or a declared
      interface. */
  method IsChildOf(reg: Registry, k: ClassInfo, parent: string) returns (r: Result<bool>)
    requires k.superclass.Some?
    ensures Kelas.Super(k) == ObjectId ==> r == Success(false)
    ensures Kelas.Super(k) != ObjectId && parent !in reg ==> r == Failure(ClassNotFound(parent))
    ensures Kelas.Super(k) != ObjectId && parent in reg ==>
      r == Success(Kelas.Super(k) == reg[parent].id || reg[parent].id in k.interfaces)
  {
    if Kelas.Super(k) == ObjectId {
      return Success(false);
    }
    var parentClass := Resolve(reg, parent);
    if parentClass.Failure? {
      return Failure(parentClass.error);
    }
    if Kelas.Super(k) == parentClass.value.id {
      return Success(true);
    }
    var i := 0;
    while i < |k.interfaces|
      invariant 0 <= i <= |k.interfaces|
      invariant parentClass.value.id !in k.interfaces[..i]
    {
      if k.interfaces[i] == parentClass.value.id {
        return Success(true);
      }
      i := i + 1;
    }
    assert k.interfaces[..i] == k.interfaces;
    return Success(false);
  }

  /** The old `getCommonSupertypeWith(that)`, with the interface loops
      written inline; it builds the same list as the new one. */
  method GetCommonSupertypeWith(k: ClassInfo, that: ClassInfo) returns (list: seq<ClassId>)
    requires k.superclass.Some?
    ensures list == Kelas.CommonSupertypes(k, that)
  {
    list := [];
    if k.superclass == that.superclass && k.superclass != Some(ObjectId) {
      list := list + [Kelas.Super(k)];
    }
    ghost var head := list;
    assert head == if Kelas.SharesSuperclass(k, that) then [Kelas.Super(k)] else [];
    var xs, ys := k.interfaces, that.interfaces;
    ghost var common: seq<ClassId> := [];
    var i := 0;
    while i < |xs|
      invariant 0 <= i <= |xs|
      invariant common == Kelas.CommonInterfaces(xs[..i], ys)
      invariant list == head + common
    {
      list := Kelas.AppendMatches(list, xs[i], ys);
      Seqs.ConcatAssoc(head, common, Kelas.Matches(xs[i], ys));
      common := common + Kelas.Matches(xs[i], ys);
      assert xs[..i + 1][..i] == xs[..i];
      i := i + 1;
    }
    assert xs[..i] == xs;
  }

  /** `isAbstract()` and `isInterface()` agree with `Kelas`. */
  predicate IsAbstract(k: ClassInfo) { Abstract in k.mods }

  predicate IsInterface(k: ClassInfo) { Interface in k.mods }

  /** `equals(k2)` */
  predicate Equals(k: ClassInfo, k2: ClassInfo) { k.id == k2.id }

  /** The old `equals` is the same relation as the new one. */
  lemma EqualsAgrees(k: ClassInfo, k2: ClassInfo)
    ensures Equals(k, k2) <==> Kelas.Equals(k, k2)
  {
  }
}
