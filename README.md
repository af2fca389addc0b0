# Maynor.Kernel in Dafny

A verified model of the core of the Maynor.Kernel C# library. It covers five parts:

- **Entity identity** (`Entity<TId>`). Two entities are equal when they have the same runtime type name and equal Ids. The `==` and `!=` operators wrap this with null handling. `GetHashCode` caches the first nonzero hash it computes in the field `hCode`; a hash of 0 is computed again on the next call.
- **The domain-event buffer** of `AggregateRoot<TId>`. Events are appended by `AddDomainEvent`, which rejects null. `ClearDomainEvents` empties the buffer. `GetDomainEvents` returns the live list. The aggregate also carries a version and audit fields.
- **The guard clauses**. `Null`, `NullOrEmpty` (for strings and collections), `NullOrWhiteSpace`, `OutOfRange`, `Zero` and `Default` return their input or throw. `IsFalse`, `IsTrue` and `MissingKey` return nothing and may throw. `Null`, `NullOrEmpty`, `NullOrWhiteSpace`, `Default` and `MissingKey` also have a message overload, each with its own rule for falling back to the default text. `OutOfRange`, `Zero`, `IsFalse` and `IsTrue` take the message as given, null included.
- **Enum flag arithmetic**. `EqualsFlag`, `HasFlag`, `AddFlag` and `RemoveFlag` work on the Int32 value behind an enum, and each handles a failed unboxing cast in its own way.
- **String predicates**. `IsNullOrEmpty` and `IsNullOrWhitespace`, and the phone-number check. The check is a fixed anchored regular expression, modelled by a hand-written recogniser. The recogniser is proved to accept exactly the language the pattern denotes.

Files, one module each:

- `errors.dfy` (`Errors`): C# null as `Ref<T>`, the exceptions the kernel throws, and `Result`/`Outcome` for a call that returns or throws.
- `text.dfy` (`Text`): `char.IsWhiteSpace`, ASCII digits and `string.Trim`.
- `string_extensions.dfy` (`StringExtensions`), `guard_clauses.dfy` (`GuardClauses`) and `enum_extensions.dfy` (`EnumExtensions`): pure functions.
- `entity.dfy` (`Entities`): a class whose method `GetHashCode` writes the cache field in a loop.
- `aggregate_root.dfy` (`Aggregates`): a class whose methods change the event list in place.

Modelling choices:

- A `[CallerMemberName]` argument is an explicit `caller` string.
- The call `Guard.Against.Null(domainEvent, nameof(domainEvent))` in `AddDomainEvent` binds to the overload whose second argument is the caller name. C# prefers the overload that needs no default argument. So the exception's parameter name is "domainEvent failed because the argument was null.".
- An Int32 used as a flag set is a sequence of 32 bits. `&`, `|` and `~` act on each bit independently.
- AddFlag and RemoveFlag take a flag `int32IsT`, which says whether a boxed Int32 can be cast to the type parameter `T`. It is false when `T` is `System.Enum`. In that case the final cast throws, and the catch reports an ArgumentException.
- The hash arithmetic is on mathematical integers, wrapped explicitly to 32 bits as the `unchecked` block does.

Where the code does something other than what its documentation leads a reader to expect, the model follows the code:

- `GetDomainEvents` returns the backing list itself, not a copy. A list obtained earlier shows later adds and clears (`Aggregates.EventBufferScenario`).
- `GetHashCode` hashes every public property, not only the Id, although identity is documented as a function of the Id alone. So equal entities can have different hashes (`Entities.EqualEntitiesMayHashApart`). A hash computed before the Id changes stays cached (`Entities.CachedHashIgnoresLaterChanges`).
- `OutOfRange` throws `ArgumentException`, not the `ArgumentOutOfRangeException` its summary names.
- The no-message `NullOrEmpty(IEnumerable)` reads the collection's runtime type before its null test, so a null collection throws `NullReferenceException`.

## Model

| member | source | states |
|---|---|---|
| StringExtensions.IsNullOrEmpty | src/Maynor.Kernel/StringExtensions.cs:11 | true exactly for null and for the empty string |
| StringExtensions.IsNullOrWhitespace | src/Maynor.Kernel/StringExtensions.cs:14 | true exactly for null or a string whose every character is white space; implied by IsNullOrEmpty |
| StringExtensions.IsValidPhoneNumber | src/Maynor.Kernel/StringExtensions.cs:31-35 | null throws ArgumentNullException("input"); otherwise true exactly when the string, or the string without one final '\n', is in the pattern's language (one of twelve templates) |
| StringExtensions.MatchesWholeIffInPattern | src/Maynor.Kernel/StringExtensions.cs:33 | the recogniser accepts a string exactly when it fits one of the twelve templates of the pattern |
| StringExtensions.LocalNumberIffTemplate | src/Maynor.Kernel/StringExtensions.cs:33 | the part after the country prefix is accepted exactly when it fits one of the four templates with or without each parenthesis |
| StringExtensions.AfterAreaCodeIffTemplate | src/Maynor.Kernel/StringExtensions.cs:33 | the part after the area code is accepted exactly when it fits, with or without the closing parenthesis |
| StringExtensions.SubscriberIffTemplate | src/Maynor.Kernel/StringExtensions.cs:33 | separator, three digits, separator, four digits is accepted exactly when it fits its template |
| StringExtensions.CountryPrefixOfTemplate | src/Maynor.Kernel/StringExtensions.cs:33 | on a string of the language, the optional "+d " or "+dd " prefix is decided by its first characters |
| StringExtensions.RejectsRunTogetherDigits | src/Maynor.Kernel/StringExtensions.cs:33 | ten digits without separators are rejected |
| StringExtensions.AcceptsParenthesisedAreaCode | src/Maynor.Kernel/StringExtensions.cs:33 | "(555) 555-5555" is accepted |
| StringExtensions.AcceptsCountryCode | src/Maynor.Kernel/StringExtensions.cs:33 | "+1 555.555.5555" is accepted |
| StringExtensions.AcceptsFinalLineBreak | src/Maynor.Kernel/StringExtensions.cs:33-34 | a lone closing parenthesis is allowed, and one final line break is matched by `$` |
| StringExtensions.RejectsTrailingSpace | src/Maynor.Kernel/StringExtensions.cs:33-34 | the pattern is anchored: a trailing space is rejected |
| Text.TrimStart | src/Maynor.Kernel/GuardClauseExtensions.cs:135 | the result is a suffix of the input, what was cut is all white space, and the result does not start with white space |
| Text.TrimEnd | src/Maynor.Kernel/GuardClauseExtensions.cs:135 | the result is a prefix of the input, what was cut is all white space, and the result does not end with white space |
| Text.TrimIsInnerSlice | src/Maynor.Kernel/GuardClauseExtensions.cs:135 | `Trim` returns a slice of the input with only white space cut at either end, and the slice neither starts nor ends with white space |
| Text.TrimEmptyIffAllWhiteSpace | src/Maynor.Kernel/GuardClauseExtensions.cs:135 | `input.Trim() == string.Empty` exactly when every character is white space |
| GuardClauses.AgainstNull | src/Maynor.Kernel/GuardClauseExtensions.cs:20-25 | returns the input exactly when it is not null; null throws ArgumentNullException whose parameter name is "<caller> failed because the argument was null." |
| GuardClauses.AgainstNullWithMessage | src/Maynor.Kernel/GuardClauseExtensions.cs:26-33 | the same, with the given message, unless it is null, empty or white space, in which case the default text is used |
| GuardClauses.NullMessageShape | test/Maynor.Kernel.Tests/GuardClauseTests.cs:23-27 | the exception message is "Value cannot be null. (Parameter '<caller> failed because the argument was null.')" |
| GuardClauses.NullMessageFallback | src/Maynor.Kernel/GuardClauseExtensions.cs:20-33 | with a blank message the message overload is the caller-name overload; with another message it differs exactly when that message differs from the default text |
| GuardClauses.NullOrEmpty | src/Maynor.Kernel/GuardClauseExtensions.cs:48-56 | null throws ArgumentNullException, "" throws ArgumentException, both with "<caller> failed because the input was empty."; every other string, white space included, is returned |
| GuardClauses.NullOrEmptyWithMessage | src/Maynor.Kernel/GuardClauseExtensions.cs:68-76 | the same with the given message; only a null or empty message falls back to the default text |
| GuardClauses.NullOrEmptyKeepsWhiteSpaceMessage | src/Maynor.Kernel/GuardClauseExtensions.cs:70 | a white-space message is kept by NullOrEmpty but replaced by Null and NullOrWhiteSpace |
| GuardClauses.NullOrEmptyEnumerable | src/Maynor.Kernel/GuardClauseExtensions.cs:89-97 | a null collection throws NullReferenceException; an empty one throws ArgumentException naming its runtime type; a non-empty one is returned |
| GuardClauses.NullOrEmptyEnumerableWithMessage | src/Maynor.Kernel/GuardClauseExtensions.cs:109-117 | a null collection throws ArgumentNullException with the message when the message is usable, else NullReferenceException; an empty one throws ArgumentException; a non-empty one is returned |
| GuardClauses.NullEnumerableOutcomes | src/Maynor.Kernel/GuardClauseExtensions.cs:89-117 | a null collection reaches ArgumentNullException only through a message that is not null or white space |
| GuardClauses.NullOrWhiteSpace | src/Maynor.Kernel/GuardClauseExtensions.cs:130-138 | null throws ArgumentNullException; a string whose trim is empty throws ArgumentException; anything else is returned |
| GuardClauses.NullOrWhiteSpaceWithMessage | src/Maynor.Kernel/GuardClauseExtensions.cs:150-158 | the same with the given message; a null or white-space message falls back |
| GuardClauses.GuardsAgreeWithStringPredicates | src/Maynor.Kernel/GuardClauseExtensions.cs:130-138 | NullOrEmpty throws exactly when IsNullOrEmpty holds, and NullOrWhiteSpace exactly when IsNullOrWhitespace holds |
| GuardClauses.WhiteSpaceOnlyInput | src/Maynor.Kernel/GuardClauseExtensions.cs:48-56 | a non-empty white-space string passes NullOrEmpty unchanged but fails NullOrWhiteSpace |
| GuardClauses.CompareInt | src/Maynor.Kernel/GuardClauseExtensions.cs:167 | `Comparer<int>.Default`: negative exactly below, positive exactly above |
| GuardClauses.OutOfRange | src/Maynor.Kernel/GuardClauseExtensions.cs:165-173 | returns the input exactly when it compares at or above min and at or below max; otherwise ArgumentException with the message as given |
| GuardClauses.OutOfRangeInclusive | src/Maynor.Kernel/GuardClauseExtensions.cs:165-173 | for integers both bounds are inclusive, and an inverted range rejects everything |
| GuardClauses.Zero | src/Maynor.Kernel/GuardClauseExtensions.cs:183-188 | throws ArgumentException exactly for the type's default value; otherwise returns the input |
| GuardClauses.Default | src/Maynor.Kernel/GuardClauseExtensions.cs:198-207 | throws ArgumentException with "The value of <T> cannot be dafault in the method <caller>." exactly for the default value or null |
| GuardClauses.DefaultWithMessage | src/Maynor.Kernel/GuardClauseExtensions.cs:208-217 | the same with the given message; a null or white-space message falls back |
| GuardClauses.GuardsIdempotent | src/Maynor.Kernel/GuardClauseExtensions.cs:20-207 | Null, NullOrEmpty, NullOrWhiteSpace and Default return their input, so applying one again to its result gives the same result |
| GuardClauses.IsFalse | src/Maynor.Kernel/GuardClauseExtensions.cs:220-223 | throws ArgumentException with the message exactly when the test yields false |
| GuardClauses.IsTrue | src/Maynor.Kernel/GuardClauseExtensions.cs:225-228 | throws ArgumentException with the message exactly when the test yields true |
| GuardClauses.IsFalseIsTrueComplementary | src/Maynor.Kernel/GuardClauseExtensions.cs:220-228 | for every test exactly one of IsFalse and IsTrue throws |
| GuardClauses.KeyString | src/Maynor.Kernel/GuardClauseExtensions.cs:233 | the key's text when ToString returned one, and "null" when it returned null |
| GuardClauses.MissingKey | src/Maynor.Kernel/GuardClauseExtensions.cs:231-237 | throws ArgumentException naming the key exactly when the key is absent; a null dictionary throws NullReferenceException |
| GuardClauses.MissingKeyWithMessage | src/Maynor.Kernel/GuardClauseExtensions.cs:239-245 | the same with the given message; a null or white-space message falls back |
| EnumExtensions.And | src/Maynor.Kernel/EnumExtensions.cs:47 | bit i of `a & b` is set exactly when bit i is set in both |
| EnumExtensions.Or | src/Maynor.Kernel/EnumExtensions.cs:70 | bit i of the bitwise or is set exactly when bit i is set in either operand |
| EnumExtensions.Complement | src/Maynor.Kernel/EnumExtensions.cs:97 | bit i of `~a` is set exactly when bit i of `a` is clear |
| EnumExtensions.NullGuard | src/Maynor.Kernel/EnumExtensions.cs:20 | a null value throws ArgumentNullException with the enclosing member's name in the text |
| EnumExtensions.EqualsFlag | src/Maynor.Kernel/EnumExtensions.cs:18-30 | a null value throws; otherwise true exactly when both unbox to Int32 and the values are equal; a failed cast answers false |
| EnumExtensions.HasFlag | src/Maynor.Kernel/EnumExtensions.cs:39-53 | a null value throws; a failed cast answers false |
| EnumExtensions.AddFlag | src/Maynor.Kernel/EnumExtensions.cs:62-82 | a null value throws ArgumentNullException; a failed unboxing of either operand, or a failed cast of the result back to T, throws ArgumentException "Could not append value from enumerated type '<T>'."; otherwise the result has exactly the bits set in the instance or the flag, the bitwise or of the two |
| EnumExtensions.RemoveFlag | src/Maynor.Kernel/EnumExtensions.cs:91-107 | a failed unboxing (null value included) or a failed cast of the result back to T throws ArgumentException "Could not remove value from enumerated type '<T>'."; otherwise the result has exactly the instance's bits that are clear in the flag (`x & ~f`) |
| EnumExtensions.HasFlagIffBitsIncluded | src/Maynor.Kernel/EnumExtensions.cs:45-47 | HasFlag is true exactly when every bit of the flag is set in the instance |
| EnumExtensions.HasFlagIffAddIsNoOp | src/Maynor.Kernel/EnumExtensions.cs:45-70 | HasFlag is true exactly when AddFlag would return the instance unchanged |
| EnumExtensions.HasZeroFlag | src/Maynor.Kernel/EnumExtensions.cs:45-47 | the empty flag is present in every value |
| EnumExtensions.AddFlagProperties | src/Maynor.Kernel/EnumExtensions.cs:68-72 | AddFlag sets exactly the bits of the instance and the flag, so the flag and every bit of the instance are present, and adding again changes nothing |
| EnumExtensions.RemoveFlagProperties | src/Maynor.Kernel/EnumExtensions.cs:95-100 | RemoveFlag clears exactly the flag's bits and keeps all others, removing again changes nothing, and the flag is then present only if it is empty |
| EnumExtensions.AddRemoveRoundTrip | src/Maynor.Kernel/EnumExtensions.cs:68-100 | remove-then-add equals add, and add-then-remove equals remove |
| EnumExtensions.EqualsFlagOnlyForInt32 | src/Maynor.Kernel/EnumExtensions.cs:24-29 | for a non-null value, EqualsFlag is true exactly for two identical Int32 values |
| EnumExtensions.EnumTargetFails | src/Maynor.Kernel/EnumExtensions.cs:70-80 | with T = `System.Enum` the boxed Int32 result cannot be cast back, so AddFlag and RemoveFlag throw ArgumentException naming 'Enum' for every pair of values, while HasFlag and EqualsFlag still answer |
| EnumExtensions.NullFlagOutcomes | src/Maynor.Kernel/EnumExtensions.cs:18-106 | a null flag gives ArgumentNullException from EqualsFlag, HasFlag and AddFlag, but ArgumentException from RemoveFlag |
| Entities.Wrap32 | src/Maynor.Kernel/Domain/Entity.cs:67-73 | the `unchecked` result is congruent to the exact one modulo 2^32 and equals it when it fits in an int |
| Entities.PropertyHash | src/Maynor.Kernel/Domain/Entity.cs:79-84 | a null property value hashes to 17, any other to its own hash |
| Entities.Entity.constructor | src/Maynor.Kernel/Domain/Entity.cs:12-17 | a new entity has its type name and Id, and no cached hash |
| Entities.Entity.SetId | src/Maynor.Kernel/Domain/Entity.cs:15 | the protected setter changes the Id and nothing else |
| Entities.Entity.Equals | src/Maynor.Kernel/Domain/Entity.cs:48-57 | false for null and for an object that is not an Entity<TId>; for an entity, true exactly when the type names and the Ids are equal |
| Entities.Entity.GetHashCode | src/Maynor.Kernel/Domain/Entity.cs:62-77 | a nonzero cached hash is returned unchanged; otherwise the hash is folded from 23 over the property hashes and stored, even when it is 0 |
| Entities.OpEquality | src/Maynor.Kernel/Domain/Entity.cs:24-35 | true for two nulls, false when exactly one is null, otherwise true exactly when the type names and Ids are equal |
| Entities.OpInequality | src/Maynor.Kernel/Domain/Entity.cs:40-43 | exactly the negation of `==` |
| Entities.EqualsReflexive | src/Maynor.Kernel/Domain/Entity.cs:48-57 | every entity equals itself |
| Entities.EqualsSymmetric | src/Maynor.Kernel/Domain/Entity.cs:48-57 | a.Equals(b) exactly when b.Equals(a) |
| Entities.EqualsTransitive | src/Maynor.Kernel/Domain/Entity.cs:48-57 | equality chains through a third entity |
| Entities.DifferentTypesNeverEqual | src/Maynor.Kernel/Domain/Entity.cs:51 | entities whose type names (FullName) differ are unequal under Equals, `==` and `!=` even with the same Id |
| Entities.EqualsSeesOnlyTypeAndId | src/Maynor.Kernel/Domain/Entity.cs:53-56 | two entities that agree on type name and Id are equal to exactly the same objects |
| Entities.OpEqualitySymmetric | src/Maynor.Kernel/Domain/Entity.cs:24-35 | `==` is symmetric, null operands included |
| Entities.HashCanBeZero | src/Maynor.Kernel/Domain/Entity.cs:64-73 | a computed hash can be 0 (one property hashing to 2^29) |
| Entities.ZeroHashIsRecomputed | src/Maynor.Kernel/Domain/Entity.cs:64-65 | after a zero hash the next call recomputes from the current properties |
| Entities.CachedHashIgnoresLaterChanges | src/Maynor.Kernel/Domain/Entity.cs:64 | a nonzero hash survives a change of Id, while equality follows the new Id |
| Entities.EqualEntitiesMayHashApart | src/Maynor.Kernel/Domain/Entity.cs:69-73 | two equal entities hash differently when another property differs |
| Aggregates.EventList.constructor | src/Maynor.Kernel/Domain/AggregateRoot.cs:11 | a new list is empty |
| Aggregates.EventList.Add | src/Maynor.Kernel/Domain/AggregateRoot.cs:35 | appends at the end |
| Aggregates.EventList.Clear | src/Maynor.Kernel/Domain/AggregateRoot.cs:39 | leaves the list empty |
| Aggregates.AggregateRoot.constructor | src/Maynor.Kernel/Domain/AggregateRoot.cs:8-23 | a new aggregate has an empty event list, version 0, default CreatedOn and null CreatedBy and UpdatedOn |
| Aggregates.AggregateRoot.GetDomainEvents | src/Maynor.Kernel/Domain/AggregateRoot.cs:29 | returns the backing list itself, holding the events in insertion order |
| Aggregates.AggregateRoot.AddDomainEvent | src/Maynor.Kernel/Domain/AggregateRoot.cs:32-36 | a null event throws ArgumentNullException ("domainEvent failed because the argument was null.") and leaves the list unchanged; any other event is appended at the end; Id, version and audit fields are unchanged |
| Aggregates.AggregateRoot.ClearDomainEvents | src/Maynor.Kernel/Domain/AggregateRoot.cs:39 | leaves the list empty, with Id, version and audit fields unchanged |
| Aggregates.EventBufferScenario | src/Maynor.Kernel/Domain/AggregateRoot.cs:29-39 | a list obtained before two adds shows both in order, then shows the clear; a null event is refused; Id and version stay put |
| Aggregates.DuplicatesKeptClearIdempotent | src/Maynor.Kernel/Domain/AggregateRoot.cs:35-39 | adding the same event twice records it twice; clearing twice leaves the list empty |

## Left out

- StringExtensions.IsValidPhoneNumber: `\d` is modelled as the ASCII digits. .NET's `\d` also matches every other Unicode decimal digit, so non-ASCII digits are accepted by the source and rejected by the model. `\s` is the `char.IsWhiteSpace` set, which is the same set in .NET. `RegexOptions.IgnoreCase` does not matter here, because the pattern has no letters.
- Entities.Entity.GetHashCode: the reflection walk over `GetType().GetProperties()` is not modelled. The method takes, as a parameter, the hash codes of the property values that walk reads. The `prop is null` case (31) is left out, because `GetProperties` never yields null.
- Entities.Entity.Equals: `EqualityComparer<TId>.Default` is modelled as Dafny equality on `TId`. A `TId` whose own `Equals` is not structural is not covered. A foreign object is represented by its type name only.
- AggregateRoot inherits from Entity in C#. Dafny classes cannot inherit here, so the aggregate holds its Entity part in the field `entity`.
- The protected setters of `Version`, `CreatedOn`, `CreatedBy` and `UpdatedOn` are plain field assignments with no logic, so they have no methods of their own. `DateTime` values are opaque, carrying only a tick count.
- GuardClauses.OutOfRange: `Comparer<T>.Default` is a function parameter. Inclusiveness is proved for `int` only.
- GuardClauses.MissingKey: `key.ToString()` is given as its result (`keyText`). A null key, which makes `ToString` throw before the lookup, is not modelled. `IDictionary.ContainsKey` is map membership.
- GuardClauses.IsFalse, GuardClauses.IsTrue: the `Func<bool>` callback is given as the bool it returns. An exception thrown by the callback is not modelled.
- GuardClauses.Zero, GuardClauses.Default: `default(T)` is passed in as `defaultValue`. `typeof(T).Name` and `enumerable.GetType().Name` are passed in as `typeName`.
- The inner exception that AddFlag and RemoveFlag attach to their ArgumentException is not modelled.
- The unboxing cast is modelled by the kind of boxed value (null, Int32-backed, other). Whether the cast of the result back to `T` succeeds is the parameter `int32IsT` of AddFlag and RemoveFlag. It is true for `int`, an Int32-backed enum and `object`, and false for `System.Enum`. The model does not derive it from `T`.
- The `IGuardClause` receiver and `Guard.Against` are stateless and are left out.
- `GetName` and `GetDescription` are left out: they depend on runtime reflection and custom attributes.
- `IsValidEmailAddress`, `ToBytes`/`FromBytes`, `ToBase64String`/`FromBase64String` and `ToHexString`/`ToHexBytes` are left out: they are thin wrappers over framework parsers and encoders.
- The interfaces `IEntity` and `IAggregateRoot` declare signatures only.
- Exception messages are modelled exactly for the kernel's own texts. For the framework's texts they are modelled only as far as `Errors.Message` renders them.
