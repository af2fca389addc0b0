/** GuardClauseExtensions: validators that return their input or throw.
    The `IGuardClause` receiver carries no state and is left out; the compiler-supplied
    `[CallerMemberName]` argument is the `caller` parameter; a `Func<bool>` test is
    given as the bool it returns; a generic `default(T)` is passed in as `defaultValue`. */
module GuardClauses {
  import opened Errors
  import opened Text
  import opened StringExtensions

  // ---------------------------------------------------------------------------
  // Default texts

  function NullText(caller: string): string {
    caller + " failed because the argument was null."
  }

  function EmptyText(caller: string): string {
    caller + " failed because the input was empty."
  }

  function EmptyEnumerableText(caller: string, typeName: string): string {
    caller + " failed because the " + typeName + " was null or empty."
  }

  function WhiteSpaceText(caller: string): string {
    caller + " failed because the input was null or whitespace"
  }

  function DefaultText(typeName: string, caller: string): string {
    "The value of " + typeName + " cannot be dafault in the method " + caller + "."
  }

  function MissingKeyText(caller: string, keyString: string): string {
    caller + " failed because the IDictionary did not have an item with the key '" + keyString + "'."
  }

  /** A custom message, unless `blank` says it must fall back to the default text. */
  function MessageOr(message: Ref<string>, blank: bool, fallback: string): (m: string)
    requires !blank ==> message.NonNull?
  {
    if blank then fallback else message.value
  }

  // ---------------------------------------------------------------------------
  // Null

  /** `Guard.Against.Null(input, caller)`: the input when it is not null; otherwise an
      ArgumentNullException whose parameter name is the composed text. */
  function AgainstNull<T>(input: Ref<T>, caller: string): (r: Result<T>)
    ensures r.Ok? <==> input.NonNull?
    ensures r.Ok? ==> r.value == input.value
    ensures r.Throws? ==> r.exception == ArgumentNullException(NullText(caller))
  {
    if input.Null? then Throws(ArgumentNullException(caller + " failed because the argument was null."))
    else Ok(input.value)
  }

  /** `Guard.Against.Null(input, message, caller)`: a null, empty or white-space message is replaced by the default text. */
  function AgainstNullWithMessage<T>(input: Ref<T>, message: Ref<string>, caller: string): (r: Result<T>)
    ensures r.Ok? <==> input.NonNull?
    ensures r.Ok? ==> r.value == input.value
    ensures r.Throws? && IsNullOrWhitespace(message) ==> r.exception == ArgumentNullException(NullText(caller))
    ensures r.Throws? && !IsNullOrWhitespace(message) ==> r.exception == ArgumentNullException(message.value)
  {
    var m := MessageOr(message, IsNullOrWhitespace(message), NullText(caller));
    if input.Null? then Throws(ArgumentNullException(m)) else Ok(input.value)
  }

  // ---------------------------------------------------------------------------
  // NullOrEmpty

  /** `NullOrEmpty(string input, caller)`: null and "" throw; any other string,
      white space included, is returned. */
  function NullOrEmpty(input: Ref<string>, caller: string): (r: Result<string>)
    ensures r.Ok? <==> !IsNullOrEmpty(input)
    ensures r.Ok? ==> r.value == input.value
    ensures input.Null? ==> r == Throws(ArgumentNullException(EmptyText(caller)))
    ensures input == NonNull("") ==> r == Throws(ArgumentException(NonNull(EmptyText(caller))))
  {
    var message := EmptyText(caller);
    if input.Null? then Throws(ArgumentNullException(message))
    else if input.value == "" then Throws(ArgumentException(NonNull(message)))
    else Ok(input.value)
  }

  /** `NullOrEmpty(string input, message, caller)`: only a null or empty message
      falls back to the default text; a white-space message is kept. */
  function NullOrEmptyWithMessage(input: Ref<string>, message: Ref<string>, caller: string): (r: Result<string>)
    ensures r.Ok? <==> !IsNullOrEmpty(input)
    ensures r.Ok? ==> r.value == input.value
    ensures var m := if IsNullOrEmpty(message) then EmptyText(caller) else message.value;
            (input.Null? ==> r == Throws(ArgumentNullException(m)))
            && (input == NonNull("") ==> r == Throws(ArgumentException(NonNull(m))))
  {
    var m := MessageOr(message, IsNullOrEmpty(message), EmptyText(caller));
    if input.Null? then Throws(ArgumentNullException(m))
    else if input.value == "" then Throws(ArgumentException(NonNull(m)))
    else Ok(input.value)
  }

  /** `NullOrEmpty(IEnumerable<T> enumerable, caller)`. The message is composed from
      `enumerable.GetType().Name` before the null test, so a null collection ends in a
      NullReferenceException; `typeName` is that runtime type name. */
  function NullOrEmptyEnumerable<T>(enumerable: Ref<seq<T>>, typeName: string, caller: string): (r: Result<seq<T>>)
    ensures enumerable.Null? ==> r == Throws(NullReferenceException)
    ensures enumerable == NonNull([]) ==> r == Throws(ArgumentException(NonNull(EmptyEnumerableText(caller, typeName))))
    ensures r.Ok? <==> enumerable.NonNull? && |enumerable.value| > 0
    ensures r.Ok? ==> r.value == enumerable.value
  {
    if enumerable.Null? then Throws(NullReferenceException)
    else
      var message := EmptyEnumerableText(caller, typeName);
      if |enumerable.value| == 0 then Throws(ArgumentException(NonNull(message)))
      else Ok(enumerable.value)
  }

  /** `NullOrEmpty(IEnumerable<T> enumerable, message, caller)`. The runtime type is read
      only when the message is null or white space, so a null collection throws
      ArgumentNullException with a usable message and NullReferenceException otherwise. */
  function NullOrEmptyEnumerableWithMessage<T>(enumerable: Ref<seq<T>>, message: Ref<string>, typeName: string, caller: string): (r: Result<seq<T>>)
    ensures enumerable.Null? && IsNullOrWhitespace(message) ==> r == Throws(NullReferenceException)
    ensures enumerable.Null? && !IsNullOrWhitespace(message) ==> r == Throws(ArgumentNullException(message.value))
    ensures var m := if IsNullOrWhitespace(message) then EmptyEnumerableText(caller, typeName) else message.value;
            enumerable == NonNull([]) ==> r == Throws(ArgumentException(NonNull(m)))
    ensures r.Ok? <==> enumerable.NonNull? && |enumerable.value| > 0
    ensures r.Ok? ==> r.value == enumerable.value
  {
    if IsNullOrWhitespace(message) && enumerable.Null? then Throws(NullReferenceException)
    else
      var m := MessageOr(message, IsNullOrWhitespace(message), EmptyEnumerableText(caller, typeName));
      if enumerable.Null? then Throws(ArgumentNullException(m))
      else if |enumerable.value| == 0 then Throws(ArgumentException(NonNull(m)))
      else Ok(enumerable.value)
  }

  // ---------------------------------------------------------------------------
  // NullOrWhiteSpace

  /** `NullOrWhiteSpace(input, caller)`: throws when `input.Trim()` is empty. */
  function NullOrWhiteSpace(input: Ref<string>, caller: string): (r: Result<string>)
    ensures r.Ok? <==> input.NonNull? && Trim(input.value) != ""
    ensures r.Ok? ==> r.value == input.value
    ensures input.Null? ==> r == Throws(ArgumentNullException(WhiteSpaceText(caller)))
    ensures input.NonNull? && r.Throws? ==> r.exception == ArgumentException(NonNull(WhiteSpaceText(caller)))
  {
    var message := WhiteSpaceText(caller);
    if input.Null? then Throws(ArgumentNullException(message))
    else if Trim(input.value) == "" then Throws(ArgumentException(NonNull(message)))
    else Ok(input.value)
  }

  /** `NullOrWhiteSpace(input, message, caller)`: a null or white-space message falls back. */
  function NullOrWhiteSpaceWithMessage(input: Ref<string>, message: Ref<string>, caller: string): (r: Result<string>)
    ensures r.Ok? <==> input.NonNull? && Trim(input.value) != ""
    ensures r.Ok? ==> r.value == input.value
    ensures var m := if IsNullOrWhitespace(message) then WhiteSpaceText(caller) else message.value;
            (input.Null? ==> r == Throws(ArgumentNullException(m)))
            && (input.NonNull? && r.Throws? ==> r.exception == ArgumentException(NonNull(m)))
  {
    var m := MessageOr(message, IsNullOrWhitespace(message), WhiteSpaceText(caller));
    if input.Null? then Throws(ArgumentNullException(m))
    else if Trim(input.value) == "" then Throws(ArgumentException(NonNull(m)))
    else Ok(input.value)
  }

  // ---------------------------------------------------------------------------
  // OutOfRange, Zero, Default

  /** `Comparer<T>.Default`, for int. */
  function CompareInt(a: int, b: int): (c: int)
    ensures c < 0 <==> a < b
    ensures c > 0 <==> a > b
  {
    if a < b then -1 else if a > b then 1 else 0
  }

  /** `OutOfRange(input, min, max, message)`: both bounds are inclusive and a violation
      throws ArgumentException (not ArgumentOutOfRangeException) with the message as given.
      `compare` is `Comparer<T>.Default.Compare`. */
  function OutOfRange<T>(input: T, min: T, max: T, message: Ref<string>, compare: (T, T) -> int): (r: Result<T>)
    ensures r.Ok? <==> compare(input, min) >= 0 && compare(input, max) <= 0
    ensures r.Ok? ==> r.value == input
    ensures r.Throws? ==> r.exception == ArgumentException(message)
  {
    if compare(input, min) < 0 then Throws(ArgumentException(message))
    else if compare(input, max) > 0 then Throws(ArgumentException(message))
    else Ok(input)
  }

  /** `Zero(input, message)` for a value type: the default value throws. */
  function Zero<T(==)>(input: T, defaultValue: T, message: Ref<string>): (r: Result<T>)
    ensures r.Ok? <==> input != defaultValue
    ensures r.Ok? ==> r.value == input
    ensures r.Throws? ==> r.exception == ArgumentException(message)
  {
    if input == defaultValue then Throws(ArgumentException(message)) else Ok(input)
  }

  /** `Default(input, caller)`: the type's default value and null both throw.
      `defaultValue` is `default(T)`: null for a reference type. */
  function Default<T(==)>(input: Ref<T>, defaultValue: Ref<T>, typeName: string, caller: string): (r: Result<T>)
    ensures r.Ok? <==> input.NonNull? && input != defaultValue
    ensures r.Ok? ==> r.value == input.value
    ensures r.Throws? ==> r.exception == ArgumentException(NonNull(DefaultText(typeName, caller)))
  {
    var message := DefaultText(typeName, caller);
    if input == defaultValue || input.Null? then Throws(ArgumentException(NonNull(message)))
    else Ok(input.value)
  }

  /** `Default(input, message, caller)`: a null or white-space message falls back. */
  function DefaultWithMessage<T(==)>(input: Ref<T>, defaultValue: Ref<T>, message: Ref<string>, typeName: string, caller: string): (r: Result<T>)
    ensures r.Ok? <==> input.NonNull? && input != defaultValue
    ensures r.Ok? ==> r.value == input.value
    ensures r.Throws? && IsNullOrWhitespace(message) ==> r.exception == ArgumentException(NonNull(DefaultText(typeName, caller)))
    ensures r.Throws? && !IsNullOrWhitespace(message) ==> r.exception == ArgumentException(message)
  {
    var m := MessageOr(message, IsNullOrWhitespace(message), DefaultText(typeName, caller));
    if input == defaultValue || input.Null? then Throws(ArgumentException(NonNull(m)))
    else Ok(input.value)
  }

  // ---------------------------------------------------------------------------
  // IsFalse, IsTrue, MissingKey

  /** `IsFalse(test, message)`: throws when the test yields false. */
  function IsFalse(test: bool, message: Ref<string>): (r: Outcome)
    ensures r.Threw? <==> !test
    ensures r.Threw? ==> r.exception == ArgumentException(message)
  {
    if !test then Threw(ArgumentException(message)) else Completed
  }

  /** `IsTrue(test, message)`: throws when the test yields true. */
  function IsTrue(test: bool, message: Ref<string>): (r: Outcome)
    ensures r.Threw? <==> test
    ensures r.Threw? ==> r.exception == ArgumentException(message)
  {
    if test then Threw(ArgumentException(message)) else Completed
  }

  /** `key.ToString() ?? "null"`, given what `ToString` returned. */
  function KeyString(keyText: Ref<string>): (k: string)
    ensures keyText.Null? ==> k == "null"
    ensures keyText.NonNull? ==> k == keyText.value
  {
    if keyText.Null? then "null" else keyText.value
  }

  /** `MissingKey(dictionary, key, caller)`: throws when the key is absent; a null
      dictionary fails on `ContainsKey`. `keyText` is what `key.ToString()` returned. */
  function MissingKey<K, V>(dictionary: Ref<map<K, V>>, key: K, keyText: Ref<string>, caller: string): (r: Outcome)
    ensures dictionary.Null? ==> r == Threw(NullReferenceException)
    ensures dictionary.NonNull? ==> (r.Threw? <==> key !in dictionary.value)
    ensures dictionary.NonNull? && r.Threw? ==>
      r.exception == ArgumentException(NonNull(MissingKeyText(caller, KeyString(keyText))))
  {
    var message := MissingKeyText(caller, KeyString(keyText));
    if dictionary.Null? then Threw(NullReferenceException)
    else if key !in dictionary.value then Threw(ArgumentException(NonNull(message)))
    else Completed
  }

  /** `MissingKey(dictionary, key, message, caller)`: a null or white-space message falls back. */
  function MissingKeyWithMessage<K, V>(dictionary: Ref<map<K, V>>, key: K, keyText: Ref<string>, message: Ref<string>, caller: string): (r: Outcome)
    ensures dictionary.Null? ==> r == Threw(NullReferenceException)
    ensures dictionary.NonNull? ==> (r.Threw? <==> key !in dictionary.value)
    ensures dictionary.NonNull? && r.Threw? && IsNullOrWhitespace(message) ==>
      r.exception == ArgumentException(NonNull(MissingKeyText(caller, KeyString(keyText))))
    ensures dictionary.NonNull? && r.Threw? && !IsNullOrWhitespace(message) ==>
      r.exception == ArgumentException(message)
  {
    var m := MessageOr(message, IsNullOrWhitespace(message), MissingKeyText(caller, KeyString(keyText)));
    if dictionary.Null? then Threw(NullReferenceException)
    else if key !in dictionary.value then Threw(ArgumentException(NonNull(m)))
    else Completed
  }

  // ---------------------------------------------------------------------------
  // Properties relating the guards to each other and to the string predicates

  /** The message a failed `Null` check shows, as the kernel's own test expects it. */
  lemma NullMessageShape(caller: string)
    ensures Message(AgainstNull<bool>(Null, caller).exception)
         == "Value cannot be null. (Parameter '" + caller + " failed because the argument was null.')"
  {
  }

  /** With a null, empty or white-space message the message overload behaves exactly like
      the caller-name overload; with any other message it differs only in the text. */
  lemma NullMessageFallback<T>(input: Ref<T>, message: Ref<string>, caller: string)
    ensures IsNullOrWhitespace(message) ==> AgainstNullWithMessage(input, message, caller) == AgainstNull(input, caller)
    ensures !IsNullOrWhitespace(message) && input.Null? ==>
      (AgainstNullWithMessage(input, message, caller) != AgainstNull(input, caller) <==> message.value != NullText(caller))
  {
  }

  /** `NullOrEmpty` keeps a white-space message that `Null` and `NullOrWhiteSpace` would replace. */
  lemma NullOrEmptyKeepsWhiteSpaceMessage(caller: string)
    ensures NullOrEmptyWithMessage(Null, NonNull(" "), caller) == Throws(ArgumentNullException(" "))
    ensures AgainstNullWithMessage<string>(Null, NonNull(" "), caller) == Throws(ArgumentNullException(NullText(caller)))
    ensures NullOrWhiteSpaceWithMessage(Null, NonNull(" "), caller) == Throws(ArgumentNullException(WhiteSpaceText(caller)))
  {
    assert IsWhiteSpace(" "[0]);
  }

  /** `NullOrEmpty` rejects exactly what `IsNullOrEmpty` reports, and `NullOrWhiteSpace`
      exactly what `IsNullOrWhitespace` reports. */
  lemma GuardsAgreeWithStringPredicates(input: Ref<string>, caller: string)
    ensures NullOrEmpty(input, caller).Throws? <==> IsNullOrEmpty(input)
    ensures NullOrWhiteSpace(input, caller).Throws? <==> IsNullOrWhitespace(input)
  {
    if input.NonNull? {
      TrimEmptyIffAllWhiteSpace(input.value);
    }
  }

  /** A white-space-only string passes `NullOrEmpty` but fails `NullOrWhiteSpace`. */
  lemma WhiteSpaceOnlyInput(input: string, caller: string)
    requires |input| > 0 && forall i :: 0 <= i < |input| ==> IsWhiteSpace(input[i])
    ensures NullOrEmpty(NonNull(input), caller) == Ok(input)
    ensures NullOrWhiteSpace(NonNull(input), caller).Throws?
  {
    GuardsAgreeWithStringPredicates(NonNull(input), caller);
  }

  /** A null collection reaches ArgumentNullException only through a usable custom message. */
  lemma NullEnumerableOutcomes<T>(message: Ref<string>, typeName: string, caller: string)
    ensures NullOrEmptyEnumerable<T>(Null, typeName, caller) == Throws(NullReferenceException)
    ensures NullOrEmptyEnumerableWithMessage<T>(Null, message, typeName, caller).exception.ArgumentNullException?
        <==> !IsNullOrWhitespace(message)
  {
  }

  /** For integers, `OutOfRange` accepts exactly `min <= input <= max`; an inverted
      range accepts nothing. */
  lemma OutOfRangeInclusive(input: int, min: int, max: int, message: Ref<string>)
    ensures OutOfRange(input, min, max, message, CompareInt).Ok? <==> min <= input <= max
    ensures min > max ==> OutOfRange(input, min, max, message, CompareInt).Throws?
  {
  }

  /** `IsFalse` and `IsTrue` throw on opposite tests: exactly one of them throws. */
  lemma IsFalseIsTrueComplementary(test: bool, message: Ref<string>)
    ensures IsFalse(test, message).Threw? != IsTrue(test, message).Threw?
  {
  }

  /** Every guard that returns, returns its input: applying it again to what it returned
      gives the same answer. */
  lemma GuardsIdempotent<T>(input: Ref<T>, defaultValue: Ref<T>, s: Ref<string>, caller: string, typeName: string)
    ensures var r := AgainstNull(input, caller); r.Ok? ==> AgainstNull(NonNull(r.value), caller) == r
    ensures var r := NullOrEmpty(s, caller); r.Ok? ==> NullOrEmpty(NonNull(r.value), caller) == r
    ensures var r := NullOrWhiteSpace(s, caller); r.Ok? ==> NullOrWhiteSpace(NonNull(r.value), caller) == r
    ensures var r := Default(input, defaultValue, typeName, caller); r.Ok? ==> Default(NonNull(r.value), defaultValue, typeName, caller) == r
  {
  }
}
