/** EnumExtensions: flag algebra on the Int32 value behind a boxed enum.
    The operators `&`, `|` and `~` on an `int` act on its 32 two's-complement bits
    independently, so an Int32 is modelled by its bits: `bits[i]` is bit `i`
    (weight 2^i; bit 31 is the sign). Two Int32 values are equal exactly when
    their bits are. */
module EnumExtensions {
  import opened Errors
  import GuardClauses

  /** The 32 bits of an Int32. */
  type Bits32 = b: seq<bool> | |b| == 32 witness seq(32, _ => false)

  /** The Int32 zero: no bit set. */
  function Zero32(): (z: Bits32)
    ensures forall i :: 0 <= i < 32 ==> !z[i]
  {
    seq(32, _ => false)
  }

  /** `a & b` */
  function And(a: Bits32, b: Bits32): (r: Bits32)
    ensures forall i :: 0 <= i < 32 ==> r[i] == (a[i] && b[i])
  {
    seq(32, i requires 0 <= i < 32 => a[i] && b[i])
  }

  /** `a | b` */
  function Or(a: Bits32, b: Bits32): (r: Bits32)
    ensures forall i :: 0 <= i < 32 ==> r[i] == (a[i] || b[i])
  {
    seq(32, i requires 0 <= i < 32 => a[i] || b[i])
  }

  /** `~a` */
  function Complement(a: Bits32): (r: Bits32)
    ensures forall i :: 0 <= i < 32 ==> r[i] == !a[i]
  {
    seq(32, i requires 0 <= i < 32 => !a[i])
  }

  /** What `(int)(object)x` finds in a boxed value: null (the cast throws
      NullReferenceException), an int or an Int32-backed enum (the cast succeeds),
      or anything else (the cast throws InvalidCastException). */
  datatype Boxed = NullBox | Int32Backed(bits: Bits32) | NotInt32

  /** `Guard.Against.Null(value)` inside the member named `caller`. */
  function NullGuard(value: Boxed, caller: string): (r: Result<()>)
    ensures r.Throws? <==> value.NullBox?
    ensures r.Throws? ==> r.exception == ArgumentNullException(GuardClauses.NullText(caller))
  {
    var g := GuardClauses.AgainstNull(if value.NullBox? then Null else NonNull(value), caller);
    if g.Throws? then Throws(g.exception) else Ok(())
  }

  /** `instance.EqualsFlag(value)`: a null value throws; an unboxing failure answers false. */
  function EqualsFlag(instance: Boxed, value: Boxed): (r: Result<bool>)
    ensures r.Throws? <==> value.NullBox?
    ensures r.Throws? ==> r.exception == ArgumentNullException(GuardClauses.NullText("EqualsFlag"))
    ensures r.Ok? ==> (r.value <==> instance.Int32Backed? && value.Int32Backed? && instance.bits == value.bits)
  {
    var g := NullGuard(value, "EqualsFlag");
    if g.Throws? then Throws(g.exception)
    else if instance.Int32Backed? && value.Int32Backed? then Ok(instance.bits == value.bits)
    else Ok(false)
  }

  /** `instance.HasFlag(value)`: a null value throws; an unboxing failure answers false. */
  function HasFlag(instance: Boxed, value: Boxed): (r: Result<bool>)
    ensures r.Throws? <==> value.NullBox?
    ensures r.Throws? ==> r.exception == ArgumentNullException(GuardClauses.NullText("HasFlag"))
    ensures r.Ok? && !(instance.Int32Backed? && value.Int32Backed?) ==> r == Ok(false)
  {
    var g := NullGuard(value, "HasFlag");
    if g.Throws? then Throws(g.exception)
    else if instance.Int32Backed? && value.Int32Backed? then
      var iInstance := instance.bits;
      var iFlag := value.bits;
      Ok(And(iInstance, iFlag) == iFlag)
    else Ok(false)
  }

  /** The text of the ArgumentException that AddFlag throws. */
  function AppendFailedText(typeName: string): string {
    "Could not append value from enumerated type '" + typeName + "'."
  }

  /** The text of the ArgumentException that RemoveFlag throws. */
  function RemoveFailedText(typeName: string): string {
    "Could not remove value from enumerated type '" + typeName + "'."
  }

  /** `instance.AddFlag(value)`. `typeName` is `typeof(T).Name`; `int32IsT` says whether
      the cast `(T)(object)n` of the boxed Int32 result succeeds: it does when T is `int`,
      an Int32-backed enum or `object`, and throws InvalidCastException when T is
      `System.Enum`. Either cast failure is reported as ArgumentException. */
  function AddFlag(instance: Boxed, value: Boxed, typeName: string, int32IsT: bool): (r: Result<Bits32>)
    ensures value.NullBox? ==> r == Throws(ArgumentNullException(GuardClauses.NullText("AddFlag")))
    ensures !value.NullBox? && !(instance.Int32Backed? && value.Int32Backed? && int32IsT) ==>
      r == Throws(ArgumentException(NonNull(AppendFailedText(typeName))))
    ensures r.Ok? <==> instance.Int32Backed? && value.Int32Backed? && int32IsT
    ensures r.Ok? ==> forall i :: 0 <= i < 32 ==> (r.value[i] <==> instance.bits[i] || value.bits[i])
  {
    var g := NullGuard(value, "AddFlag");
    if g.Throws? then Throws(g.exception)
    else if instance.Int32Backed? && value.Int32Backed? then
      var iInstance := instance.bits;
      var iFlag := value.bits;
      if int32IsT then Ok(Or(iInstance, iFlag))
      else Throws(ArgumentException(NonNull(AppendFailedText(typeName))))
    else Throws(ArgumentException(NonNull(AppendFailedText(typeName))))
  }

  /** `instance.RemoveFlag(value)`, with `typeName` and `int32IsT` as for AddFlag. There is
      no null guard, so a null value fails in the cast and surfaces as ArgumentException. */
  function RemoveFlag(instance: Boxed, value: Boxed, typeName: string, int32IsT: bool): (r: Result<Bits32>)
    ensures !(instance.Int32Backed? && value.Int32Backed? && int32IsT) ==>
      r == Throws(ArgumentException(NonNull(RemoveFailedText(typeName))))
    ensures r.Ok? <==> instance.Int32Backed? && value.Int32Backed? && int32IsT
    ensures r.Ok? ==> forall i :: 0 <= i < 32 ==> (r.value[i] <==> instance.bits[i] && !value.bits[i])
  {
    if instance.Int32Backed? && value.Int32Backed? then
      var iInstance := instance.bits;
      var iFlag := value.bits;
      var iResult := And(iInstance, Complement(iFlag));
      if int32IsT then Ok(iResult)
      else Throws(ArgumentException(NonNull(RemoveFailedText(typeName))))
    else Throws(ArgumentException(NonNull(RemoveFailedText(typeName))))
  }

  // ---------------------------------------------------------------------------
  // The flag algebra

  /** HasFlag holds exactly when every bit of the flag is also set in the instance. */
  lemma HasFlagIffBitsIncluded(x: Bits32, f: Bits32)
    ensures HasFlag(Int32Backed(x), Int32Backed(f)) == Ok(true)
        <==> forall i :: 0 <= i < 32 && f[i] ==> x[i]
  {
    if forall i :: 0 <= i < 32 && f[i] ==> x[i] {
      assert And(x, f) == f;
    }
  }

  /** HasFlag holds exactly when adding the flag would change nothing. */
  lemma HasFlagIffAddIsNoOp(x: Bits32, f: Bits32, typeName: string)
    ensures HasFlag(Int32Backed(x), Int32Backed(f)) == Ok(true)
        <==> AddFlag(Int32Backed(x), Int32Backed(f), typeName, true) == Ok(x)
  {
    if And(x, f) == f {
      assert Or(x, f) == x;
    }
    if Or(x, f) == x {
      assert And(x, f) == f;
    }
  }

  /** The empty flag is in every Int32 value. */
  lemma HasZeroFlag(x: Bits32)
    ensures HasFlag(Int32Backed(x), Int32Backed(Zero32())) == Ok(true)
  {
    assert And(x, Zero32()) == Zero32();
  }

  /** AddFlag sets exactly the bits of the instance and of the flag: the flag is then
      present, no bit of the instance is lost, and adding the flag again changes nothing. */
  lemma AddFlagProperties(x: Bits32, f: Bits32, typeName: string)
    ensures var r := AddFlag(Int32Backed(x), Int32Backed(f), typeName, true);
      r.Ok?
      && (forall i :: 0 <= i < 32 ==> (r.value[i] <==> x[i] || f[i]))
      && HasFlag(Int32Backed(r.value), Int32Backed(f)) == Ok(true)
      && HasFlag(Int32Backed(r.value), Int32Backed(x)) == Ok(true)
      && AddFlag(Int32Backed(r.value), Int32Backed(f), typeName, true) == r
  {
    var v := Or(x, f);
    assert And(v, f) == f;
    assert And(v, x) == x;
    assert Or(v, f) == v;
  }

  /** RemoveFlag clears exactly the flag's bits: none of them is left, every other bit of
      the instance is kept, removing again changes nothing, and the flag is then present
      only if it is empty. */
  lemma RemoveFlagProperties(x: Bits32, f: Bits32, typeName: string)
    ensures var r := RemoveFlag(Int32Backed(x), Int32Backed(f), typeName, true);
      r.Ok?
      && (forall i :: 0 <= i < 32 ==> (r.value[i] <==> x[i] && !f[i]))
      && RemoveFlag(Int32Backed(r.value), Int32Backed(f), typeName, true) == r
      && (HasFlag(Int32Backed(r.value), Int32Backed(f)) == Ok(true) <==> f == Zero32())
  {
    var v := And(x, Complement(f));
    assert And(v, Complement(f)) == v;
    if And(v, f) == f {
      assert f == Zero32() by {
        forall i | 0 <= i < 32 ensures !f[i] {
          assert And(v, f)[i] == f[i];
        }
      }
    }
    if f == Zero32() {
      assert And(v, f) == f;
    }
  }

  /** Removing then adding the flag is the same as adding it; adding then removing is the
      same as removing it. */
  lemma AddRemoveRoundTrip(x: Bits32, f: Bits32, typeName: string)
    ensures AddFlag(Int32Backed(RemoveFlag(Int32Backed(x), Int32Backed(f), typeName, true).value), Int32Backed(f), typeName, true)
         == AddFlag(Int32Backed(x), Int32Backed(f), typeName, true)
    ensures RemoveFlag(Int32Backed(AddFlag(Int32Backed(x), Int32Backed(f), typeName, true).value), Int32Backed(f), typeName, true)
         == RemoveFlag(Int32Backed(x), Int32Backed(f), typeName, true)
  {
    assert Or(And(x, Complement(f)), f) == Or(x, f);
    assert And(Or(x, f), Complement(f)) == And(x, Complement(f));
  }

  /** EqualsFlag compares the Int32 values only; a value that does not unbox is never equal. */
  lemma EqualsFlagOnlyForInt32(instance: Boxed, value: Boxed)
    requires !value.NullBox?
    ensures EqualsFlag(instance, value) == Ok(true)
        <==> instance.Int32Backed? && instance == value
  {
  }

  /** A null flag is rejected up front by EqualsFlag, HasFlag and AddFlag, but RemoveFlag
      reports it as a failed cast. */
  lemma NullFlagOutcomes(x: Boxed, typeName: string, int32IsT: bool)
    ensures EqualsFlag(x, NullBox).exception.ArgumentNullException?
    ensures HasFlag(x, NullBox).exception.ArgumentNullException?
    ensures AddFlag(x, NullBox, typeName, int32IsT).exception.ArgumentNullException?
    ensures RemoveFlag(x, NullBox, typeName, int32IsT) == Throws(ArgumentException(NonNull(RemoveFailedText(typeName))))
  {
  }

  /** With T = `System.Enum` the flag arithmetic succeeds but the result cannot be cast
      back to T, so AddFlag and RemoveFlag fail for every pair of Int32 values, while
      HasFlag and EqualsFlag, which cast nothing back, still answer. */
  lemma EnumTargetFails(x: Bits32, f: Bits32)
    ensures AddFlag(Int32Backed(x), Int32Backed(f), "Enum", false)
         == Throws(ArgumentException(NonNull("Could not append value from enumerated type 'Enum'.")))
    ensures RemoveFlag(Int32Backed(x), Int32Backed(f), "Enum", false)
         == Throws(ArgumentException(NonNull("Could not remove value from enumerated type 'Enum'.")))
    ensures HasFlag(Int32Backed(x), Int32Backed(f)).Ok? && EqualsFlag(Int32Backed(x), Int32Backed(f)).Ok?
  {
    assert AppendFailedText("Enum") == "Could not append value from enumerated type 'Enum'.";
    assert RemoveFailedText("Enum") == "Could not remove value from enumerated type 'Enum'.";
  }
}
