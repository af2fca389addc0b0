/** Entity<TId>: identity equality by runtime type name and Id, the null-aware
    `==`/`!=` operators, and the hash code cached in the field `hCode`.
    The runtime type is represented by its `FullName`; the reflection walk of
    `GetHashCode` is represented by the hash codes of the property values it reads. */
module Entities {
  import opened Errors

  /** A C# `int`. */
  type Int32 = x: int | -0x8000_0000 <= x < 0x8000_0000

  /** `unchecked` conversion of an integer result to `int`: keep the low 32 bits,
      read as two's complement. */
  function Wrap32(x: int): (r: Int32)
    ensures (r - x) % 0x1_0000_0000 == 0
    ensures -0x8000_0000 <= x < 0x8000_0000 ==> r == x
  {
    (x + 0x8000_0000) % 0x1_0000_0000 - 0x8000_0000
  }

  /** The `object? other` handed to `Equals`: null, an `Entity<TId>` (of any runtime
      type deriving from it), or an object that is not an `Entity<TId>`, known by
      its type's `FullName`. */
  datatype Obj<TId(==)> = NullObj | EntityRef(entity: Entity<TId>) | Foreign(fullName: string)

  /** `GetPropertyHashCode` for one property: a null value hashes to 17, any other value
      to its own `GetHashCode()`. */
  function PropertyHash(value: Ref<Int32>): (h: Int32)
    ensures value.Null? ==> h == 17
    ensures value.NonNull? ==> h == value.value
  {
    match value
    case Null => 17
    case NonNull(v) => v
  }

  /** The value `GetHashCode` computes from scratch: 23, then `hCode = hCode * h + h`
      wrapped to 32 bits for each property hash `h` in turn. */
  function HashOf(values: seq<Ref<Int32>>): (r: Int32)
  {
    if values == [] then 23
    else
      var acc := HashOf(values[..|values| - 1]);
      var h := PropertyHash(values[|values| - 1]);
      Wrap32(acc * h + h)
  }

  class Entity<TId(==)> {
    /** `GetType().FullName` of the concrete entity. */
    const typeName: string
    /** `_id`, behind the `Id` property. */
    var id: TId
    /** The cached hash; 0 means "not computed". */
    var hCode: Int32

    /** A new entity of runtime type `typeName` whose constructor has set `Id` to `id`;
        no hash is cached yet. */
    constructor (typeName: string, id: TId)
      ensures this.typeName == typeName && this.id == id && hCode == 0
    {
      this.typeName := typeName;
      this.id := id;
      hCode := 0;
    }

    /** The protected `Id` setter. It leaves the cached hash alone. */
    method SetId(value: TId)
      modifies this`id
      ensures id == value
    {
      id := value;
    }

    /** `Equals(object? other)`: false for null, false for a different runtime type name,
        false when `other` is not an `Entity<TId>`; otherwise the two Ids are compared. */
    function Equals(other: Obj<TId>): (r: bool)
      reads this, if other.EntityRef? then {other.entity} else {}
      ensures other.NullObj? ==> !r
      ensures other.Foreign? ==> !r
      ensures other.EntityRef? ==> (r <==> other.entity.typeName == typeName && other.entity.id == id)
    {
      if other.NullObj? then false
      else if (if other.EntityRef? then other.entity.typeName else other.fullName) != typeName then false
      else if !other.EntityRef? then false
      else id == other.entity.id
    }

    /** `GetHashCode()`: a nonzero cached value is returned as is; otherwise the hash is
        computed from the current property values and stored, even when it is 0. */
    method GetHashCode(values: seq<Ref<Int32>>) returns (h: Int32)
      modifies this`hCode
      ensures old(hCode) != 0 ==> h == old(hCode)
      ensures old(hCode) == 0 ==> h == HashOf(values)
      ensures hCode == h
    {
      if hCode != 0 {
        return hCode;
      }
      hCode := 23;
      var i := 0;
      while i < |values|
        invariant 0 <= i <= |values|
        invariant hCode == HashOf(values[..i])
      {
        var p := PropertyHash(values[i]);
        assert values[..i + 1][..i] == values[..i];
        hCode := Wrap32(hCode * p + p);
        i := i + 1;
      }
      assert values[..i] == values;
      h := hCode;
    }
  }

  /** `operator ==`: two nulls are equal, a null and a non-null are not, and otherwise
      the left operand's `Equals` decides. */
  function OpEquality<TId(==)>(obj1: Entity?<TId>, obj2: Entity?<TId>): (r: bool)
    reads obj1, obj2
    ensures obj1 == null && obj2 == null ==> r
    ensures (obj1 == null) != (obj2 == null) ==> !r
    ensures obj1 != null && obj2 != null ==> (r <==> obj1.typeName == obj2.typeName && obj1.id == obj2.id)
  {
    if obj1 == null then obj2 == null
    else obj1.Equals(if obj2 == null then NullObj else EntityRef(obj2))
  }

  /** `operator !=`. */
  function OpInequality<TId(==)>(obj1: Entity?<TId>, obj2: Entity?<TId>): (r: bool)
    reads obj1, obj2
    ensures r <==> !OpEquality(obj1, obj2)
  {
    !OpEquality(obj1, obj2)
  }

  // ---------------------------------------------------------------------------
  // Equality laws

  /** Every entity equals itself. */
  lemma EqualsReflexive<TId>(a: Entity<TId>)
    ensures a.Equals(EntityRef(a))
  {
  }

  /** Equality does not depend on which side asks. */
  lemma EqualsSymmetric<TId>(a: Entity<TId>, b: Entity<TId>)
    ensures a.Equals(EntityRef(b)) == b.Equals(EntityRef(a))
  {
  }

  /** Equality chains. */
  lemma EqualsTransitive<TId>(a: Entity<TId>, b: Entity<TId>, c: Entity<TId>)
    requires a.Equals(EntityRef(b)) && b.Equals(EntityRef(c))
    ensures a.Equals(EntityRef(c))
  {
  }

  /** Equal Ids are not enough: entities of different runtime types are never equal. */
  lemma DifferentTypesNeverEqual<TId>(a: Entity<TId>, b: Entity<TId>)
    requires a.typeName != b.typeName && a.id == b.id
    ensures !a.Equals(EntityRef(b)) && !OpEquality(a, b) && OpInequality(a, b)
  {
  }

  /** Only the type name and the Id take part: two entities that agree on both are
      equal to exactly the same objects, whatever their cached hashes. */
  lemma EqualsSeesOnlyTypeAndId<TId>(a: Entity<TId>, b: Entity<TId>, other: Obj<TId>)
    requires a.typeName == b.typeName && a.id == b.id
    ensures a.Equals(other) == b.Equals(other)
  {
  }

  /** `==` is symmetric, including the null cases. */
  lemma OpEqualitySymmetric<TId>(obj1: Entity?<TId>, obj2: Entity?<TId>)
    ensures OpEquality(obj1, obj2) == OpEquality(obj2, obj1)
  {
  }

  // ---------------------------------------------------------------------------
  // The hash cache

  /** A from-scratch hash can be 0, e.g. for one property hashing to 2^29:
      23 * 2^29 + 2^29 = 3 * 2^32. Such a result is stored but not treated as cached. */
  lemma HashCanBeZero()
    ensures HashOf([NonNull(0x2000_0000)]) == 0
  {
    var s: seq<Ref<Int32>> := [NonNull(0x2000_0000)];
    assert s[..0] == [];
    assert HashOf(s) == Wrap32(23 * 0x2000_0000 + 0x2000_0000);
  }

  /** A zero hash is recomputed on the next call, from the then current property values. */
  method ZeroHashIsRecomputed() returns (h1: Int32, h2: Int32)
    ensures h1 == 0 && h2 == 24
  {
    // An entity whose one property, its Id, hashes to itself.
    var e := new Entity<int>("Shop.Order", 0x2000_0000);
    HashCanBeZero();
    h1 := e.GetHashCode([NonNull(e.id)]);
    e.SetId(1);
    var s: seq<Ref<Int32>> := [NonNull(e.id)];
    assert s[..0] == [];
    h2 := e.GetHashCode(s);
  }

  /** A nonzero hash stays cached after the Id changes, while equality follows the new Id. */
  method CachedHashIgnoresLaterChanges() returns (e: Entity<int>, f: Entity<int>, h1: Int32, h2: Int32)
    ensures h1 == h2 == 1008
    ensures e.id == 7 && e.Equals(EntityRef(f))
  {
    e := new Entity<int>("Shop.Order", 42);
    f := new Entity<int>("Shop.Order", 7);
    var s: seq<Ref<Int32>> := [NonNull(42)];
    assert s[..0] == [];
    h1 := e.GetHashCode(s);
    e.SetId(7);
    h2 := e.GetHashCode([NonNull(7)]);
  }

  /** The hash covers every property, not only the Id: two equal entities can hash
      differently (here they differ in a second property such as `Version`). */
  method EqualEntitiesMayHashApart() returns (a: Entity<int>, b: Entity<int>, ha: Int32, hb: Int32)
    ensures a.Equals(EntityRef(b)) && OpEquality(a, b)
    ensures ha == 1009 && hb == 2018
  {
    a := new Entity<int>("Shop.Order", 42);
    b := new Entity<int>("Shop.Order", 42);
    var sa: seq<Ref<Int32>> := [NonNull(42), NonNull(1)];
    var sb: seq<Ref<Int32>> := [NonNull(42), NonNull(2)];
    assert sa[..1] == [NonNull(42)] && sb[..1] == [NonNull(42)];
    assert sa[..1][..0] == [];
    ha := a.GetHashCode(sa);
    hb := b.GetHashCode(sb);
  }
}
