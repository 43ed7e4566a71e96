/** The chainable member query of `KelasConstructors`: an object that holds
    a stream of declared members, narrows it in place with each filter stage
    (every stage returns the same object, so calls chain), and hands it over
    to exactly one terminal operation. A Java stream can be consumed once;
    `spent` records that it has been. */
module KelasConstructors {
  import Seqs
  import opened ClassMeta

  /** The stage predicate of `filterPublic`, `filterPrivate`, `areProtected`,
      `areStatic` and `areFinal`: with `allowed` keep the members that carry
      `mod`, without it keep those that do not. */
  function ModifierIs(mod: Modifier, allowed: bool): Member -> bool {
    (m: Member) => if allowed then HasMod(m, mod) else !HasMod(m, mod)
  }

  /** The stage predicate of `excludeDefault`: a constructor survives when it
      takes parameters or is public. */
  function NotHiddenDefault(): Member -> bool {
    (c: Member) => c.ParamCount() != 0 || HasMod(c, Public)
  }

  /** What `excludeDefault` removes: a non-public constructor without parameters. */
  predicate IsHiddenDefault(c: Member) {
    c.ParamCount() == 0 && !HasMod(c, Public)
  }

  /** The stage predicate of `haveName`. */
  function NameIs(name: string): Member -> bool {
    (m: Member) => m.name == name
  }

  class MemberStream {
    /** The members still in the stream, in declaration order. */
    var stream: seq<Member>
    /** The members the stream was created with. */
    ghost const original: seq<Member>
    /** Whether a terminal operation has consumed the stream. */
    var spent: bool

    /** Every stage only deletes members, keeping the order of the others. */
    ghost predicate Valid()
      reads this
    {
      Seqs.IsSubsequence(stream, original)
    }

    constructor (members: seq<Member>)
      ensures Valid() && !spent
      ensures stream == members && original == members
    {
      stream := members;
      original := members;
      spent := false;
      new;
      Seqs.SubsequenceRefl(members);
    }

    /** `filter(pred)`: keep the members that satisfy `pred`. */
    method Filter(pred: Member -> bool) returns (self: MemberStream)
      requires Valid() && !spent
      modifies this`stream
      ensures self == this && Valid() && !spent
      ensures stream == Seqs.Filter(old(stream), pred)
      ensures Seqs.IsSubsequence(stream, old(stream))
    {
      Seqs.FilterIsSubsequence(stream, pred);
      Seqs.SubsequenceTrans(Seqs.Filter(stream, pred), stream, original);
      stream := Seqs.Filter(stream, pred);
      self := this;
    }

    method FilterPublic(allowed: bool) returns (self: MemberStream)
      requires Valid() && !spent
      modifies this`stream
      ensures self == this && Valid() && !spent
      ensures stream == Seqs.Filter(old(stream), ModifierIs(Public, allowed))
      ensures Seqs.IsSubsequence(stream, old(stream))
    {
      self := Filter(ModifierIs(Public, allowed));
    }

    method FilterPrivate(allowed: bool) returns (self: MemberStream)
      requires Valid() && !spent
      modifies this`stream
      ensures self == this && Valid() && !spent
      ensures stream == Seqs.Filter(old(stream), ModifierIs(Private, allowed))
      ensures Seqs.IsSubsequence(stream, old(stream))
    {
      self := Filter(ModifierIs(Private, allowed));
    }

    method AreProtected(allowed: bool) returns (self: MemberStream)
      requires Valid() && !spent
      modifies this`stream
      ensures self == this && Valid() && !spent
      ensures stream == Seqs.Filter(old(stream), ModifierIs(Protected, allowed))
      ensures Seqs.IsSubsequence(stream, old(stream))
    {
      self := Filter(ModifierIs(Protected, allowed));
    }

    method AreStatic(allowed: bool) returns (self: MemberStream)
      requires Valid() && !spent
      modifies this`stream
      ensures self == this && Valid() && !spent
      ensures stream == Seqs.Filter(old(stream), ModifierIs(Static, allowed))
      ensures Seqs.IsSubsequence(stream, old(stream))
    {
      self := Filter(ModifierIs(Static, allowed));
    }

    method AreFinal(allowed: bool) returns (self: MemberStream)
      requires Valid() && !spent
      modifies this`stream
      ensures self == this && Valid() && !spent
      ensures stream == Seqs.Filter(old(stream), ModifierIs(Final, allowed))
      ensures Seqs.IsSubsequence(stream, old(stream))
    {
      self := Filter(ModifierIs(Final, allowed));
    }

    /** `excludeDefault`: drop the non-public constructors without parameters. */
    method ExcludeDefault() returns (self: MemberStream)
      requires Valid() && !spent
      modifies this`stream
      ensures self == this && Valid() && !spent
      ensures stream == Seqs.Filter(old(stream), NotHiddenDefault())
      ensures forall c :: c in stream <==> c in old(stream) && !IsHiddenDefault(c)
    {
      self := Filter(NotHiddenDefault());
    }

    /** `haveName(name)`: keep the members called exactly `name`. */
    method HaveName(name: string) returns (self: MemberStream)
      requires Valid() && !spent
      modifies this`stream
      ensures self == this && Valid() && !spent
      ensures stream == Seqs.Filter(old(stream), NameIs(name))
      ensures forall m :: m in stream <==> m in old(stream) && m.name == name
    {
      self := Filter(NameIs(name));
    }

    /** Terminal: `toList()`, the remaining members in order. */
    method ToList() returns (list: seq<Member>)
      requires Valid() && !spent
      modifies this`spent
      ensures spent
      ensures list == stream && Seqs.IsSubsequence(list, original)
    {
      list := stream;
      spent := true;
    }

    /** Terminal: `count()`. */
    method Count() returns (n: int)
      requires Valid() && !spent
      modifies this`spent
      ensures spent
      ensures n == |stream|
    {
      n := |stream|;
      spent := true;
    }

    /** Terminal, through `count()`: `countEquals(number)`. */
    method CountEquals(number: int) returns (b: bool)
      requires Valid() && !spent
      modifies this`spent
      ensures spent
      ensures b <==> |stream| == number
    {
      var n := Count();
      b := n == number;
    }

    /** Terminal, through `count()`: `areAbsent()`. */
    method AreAbsent() returns (b: bool)
      requires Valid() && !spent
      modifies this`spent
      ensures spent
      ensures b <==> stream == []
    {
      var n := Count();
      b := n == 0;
    }

    /** Terminal, through `areAbsent()`: `arePresent()`. */
    method ArePresent() returns (b: bool)
      requires Valid() && !spent
      modifies this`spent
      ensures spent
      ensures b <==> stream != []
    {
      var absent := AreAbsent();
      b := !absent;
    }

    /** Terminal: `hasOnlyPrivate()`, vacuously true on an empty stream. */
    method HasOnlyPrivate() returns (b: bool)
      requires Valid() && !spent
      modifies this`spent
      ensures spent
      ensures b <==> forall i :: 0 <= i < |stream| ==> HasMod(stream[i], Private)
    {
      var s := stream;
      b := forall i :: 0 <= i < |s| ==> HasMod(s[i], Private);
      spent := true;
      assert s == stream;
    }
  }

  /** A modifier stage with `allowed` and the same stage without it split any
      stream: together they hold each member exactly as often as the stream,
      and each member lands on the side its modifier says. */
  lemma ModifierStagesPartition(s: seq<Member>, mod: Modifier)
    ensures multiset(Seqs.Filter(s, ModifierIs(mod, true)))
          + multiset(Seqs.Filter(s, ModifierIs(mod, false))) == multiset(s)
    ensures forall m :: m in Seqs.Filter(s, ModifierIs(mod, true)) <==> m in s && HasMod(m, mod)
    ensures forall m :: m in Seqs.Filter(s, ModifierIs(mod, false)) <==> m in s && !HasMod(m, mod)
  {
    Seqs.FilterPartition(s, ModifierIs(mod, true), ModifierIs(mod, false));
  }

  /** Both sides of a modifier stage keep the order of the stream. */
  lemma ModifierStagesKeepOrder(s: seq<Member>, mod: Modifier)
    ensures Seqs.IsSubsequence(Seqs.Filter(s, ModifierIs(mod, true)), s)
    ensures Seqs.IsSubsequence(Seqs.Filter(s, ModifierIs(mod, false)), s)
  {
    Seqs.FilterIsSubsequence(s, ModifierIs(mod, true));
    Seqs.FilterIsSubsequence(s, ModifierIs(mod, false));
  }

  /** `excludeDefault` removes exactly the hidden default constructors: what
      it keeps and what it removes make up the stream, and a public
      constructor without parameters is kept. */
  lemma ExcludeDefaultRemovesExactly(s: seq<Member>)
    ensures multiset(Seqs.Filter(s, NotHiddenDefault()))
          + multiset(Seqs.Filter(s, IsHiddenDefault)) == multiset(s)
    ensures forall c :: c in Seqs.Filter(s, IsHiddenDefault) <==> c in s && IsHiddenDefault(c)
    ensures forall c :: c in s && c.ParamCount() == 0 && HasMod(c, Public) ==> c in Seqs.Filter(s, NotHiddenDefault())
  {
    Seqs.FilterPartition(s, NotHiddenDefault(), IsHiddenDefault);
  }
}
