# User profile update reconciler, modelled in Dafny

This project models the core of a user-profile service: `UserProfileService`
and the `Command` token table it uses. The service does two things.

- **`get`** returns the stored profile for a user id. When the store has none, it fails with `EntityNotFoundException`.
- **`update(userId, commandUserId, properties, type)`** does the following, in order:
  1. It checks that the two ids are equal.
  2. It turns the `type` token into one of three commands.
  3. It reads the stored profile.
  4. A user with no profile gets the incoming property map as it is.
  5. Otherwise the command's merge rule is applied key by key to a copy of the stored properties:
     - **COLLECT** appends lists. The stored and incoming values are each parsed by deleting `[`, `]` and whitespace and then splitting on `,`.
     - **INCREMENT** adds Java `int`s, with 32-bit wrap-around.
     - **REPLACE** overwrites.
  6. It writes the result once, stamped with the current time, and reads it back.

Modules, one per file:

| file | module | what it holds |
|---|---|---|
| `wrappers.dfy` | `Wrappers` | `Option` (Java `null` / an empty `Optional`) and `Result` (a value, or the exception thrown) |
| `java_int.dfy` | `JavaInt` | `Integer.parseInt`, `Integer.toString`, and `int` addition with wrap-around |
| `java_text.dfy` | `JavaText` | the `[\[\]\s]` deletion, `String.split(",")` with its trailing-empty rule, and list joining |
| `command.dfy` | `Commands` | the `Command` enum, `getType` and `fromType` |
| `profile.dfy` | `Profiles` | user ids, property values and their rendering, profiles, and the four service errors |
| `merge.dfy` | `Merge` | the three merge rules |
| `service.dfy` | `ProfileService` | the store, the service class, and the pure `Reconcile` |
| `scenarios.dfy` | `Scenarios` | whole updates on concrete requests |

How `merge.dfy` is built:

- Each rule is specified by a function over the stored and incoming maps: `CollectMerge`, `IncrementMerge` and `ReplaceMerge`.
- All three are instances of one generic `MergeOn`.
- Each rule is also carried out by a method with a loop: `CollectInto`, `IncrementInto` and `ReplaceInto`.
- Each loop takes the incoming keys in an arbitrary order, as iterating a `HashMap` does. Each method is proved to compute its function.

How `service.dfy` is built:

- The store is a class, `UserProfileDao`.
  - Its field `profiles` maps user ids to profiles.
  - A ghost `trace` records each `get` and `put` made on it.
- `UserProfileService.Update` is proved against the pure function `Reconcile`. It states:
  - the profile written, or the error;
  - that the store is untouched on failure;
  - the exact sequence of store reads and writes it makes.
- `ApplyCommand` is the `switch` inside `update`. It is a method of its own so that each proof stays small.

Where the code and a natural reading of its contract differ, the model follows the code:

- **Store reads.** An update of a stored profile reads the store three times:
  - the first read (line 46);
  - again inside `loadProperties` (line 137);
  - once more for the result (line 58).

  `Accesses` and `Update`'s contract record all three.
- **Quote characters in COLLECT.** Collecting `{"a": "[\"x\"]"}` and then `{"a": "[\"y\"]"}` gives the list `["\"x\"", "\"y\""]`, not `["x", "y"]`. The parser deletes only brackets and whitespace, so the quote characters stay in the elements (`Scenarios.CollectTwice`).

In the table below, `S` stands for
`src/main/java/com/spotlight/platform/userprofile/api/core/profile/UserProfileService.java`
and `C` for `src/main/java/com/spotlight/platform/userprofile/api/web/data/enums/Command.java`.
The `source` column writes both paths out in full.

## Model

| member | source | states |
|---|---|---|
| Commands.FirstMatch | src/main/java/com/spotlight/platform/userprofile/api/web/data/enums/Command.java:18-23 | Returns the first constant, in declaration order, whose token equals the argument: no earlier constant matches. Returns nothing only when no constant's token equals it. `null` equals none. |
| Commands.FromType | src/main/java/com/spotlight/platform/userprofile/api/web/data/enums/Command.java:18-24 | Succeeds exactly on "collect", "increment" and "replace", and the constant returned has that token. Any other string, and `null`, is rejected (`IllegalArgumentException`). |
| Commands.TokensDistinct | src/main/java/com/spotlight/platform/userprofile/api/web/data/enums/Command.java:4-6 | Two constants with the same token are the same constant, so the search finds at most one hit. |
| Commands.FromTypeGetType | src/main/java/com/spotlight/platform/userprofile/api/web/data/enums/Command.java:14-23 | `fromType(c.getType()) == c` for every constant `c`. |
| Commands.FromTypeRejects | src/main/java/com/spotlight/platform/userprofile/api/web/data/enums/Command.java:18-24 | The lookup is case-sensitive: "COLLECT", "Replace" and "InvalidType" are rejected, and so is `null`. |
| JavaInt.NatToString | src/main/java/com/spotlight/platform/userprofile/api/core/profile/UserProfileService.java:109 | The decimal text of a number is non-empty, all digits, and has no leading zero. |
| JavaInt.ParseDigitsAccepts | src/main/java/com/spotlight/platform/userprofile/api/core/profile/UserProfileService.java:106 | The digit loop of `parseInt` succeeds exactly on strings made only of decimal digits. |
| JavaInt.ParseDigitsValue | src/main/java/com/spotlight/platform/userprofile/api/core/profile/UserProfileService.java:106 | The digit loop of `parseInt` reads a digit string as its positional decimal value (`DigitsValue`, defined right to left). |
| JavaInt.ParseIntAccepts | src/main/java/com/spotlight/platform/userprofile/api/core/profile/UserProfileService.java:106 | `parseInt` succeeds exactly on an optional `-` or `+` followed by at least one digit whose signed value fits in an `int`, and then returns that value. An out-of-range numeral is rejected, not wrapped. |
| JavaInt.ParseIntPastMax | src/main/java/com/spotlight/platform/userprofile/api/core/profile/UserProfileService.java:106 | "2147483648" is rejected, so INCREMENT by it fails. |
| JavaInt.ParseIntMin | src/main/java/com/spotlight/platform/userprofile/api/core/profile/UserProfileService.java:106 | "-2147483648" is read as `MIN_VALUE`. |
| JavaInt.NatToStringValue | src/main/java/com/spotlight/platform/userprofile/api/core/profile/UserProfileService.java:109-111 | The digit loop reads the decimal text of `n` back as `n`. |
| JavaInt.ParseIntToString | src/main/java/com/spotlight/platform/userprofile/api/core/profile/UserProfileService.java:109-111 | `parseInt(toString(n)) == n` for every `int`, so a number that INCREMENT stored is read back as itself. |
| JavaInt.ParseIntExamples | src/main/java/com/spotlight/platform/userprofile/api/core/profile/UserProfileService.java:106 | "10", "-1" and "+007" parse to 10, -1 and 7. "A", "-", "" and " 5" are rejected. |
| JavaInt.Wrap | src/main/java/com/spotlight/platform/userprofile/api/core/profile/UserProfileService.java:113 | The wrapped value is an `int`, is congruent to the input modulo 2^32, and equals the input when the input is in range. |
| JavaInt.AddIntWraps | src/main/java/com/spotlight/platform/userprofile/api/core/profile/UserProfileService.java:113 | Java's `int` `+` is the exact sum reduced modulo 2^32 into the `int` range. |
| JavaInt.WrapAddWrap | src/main/java/com/spotlight/platform/userprofile/api/core/profile/UserProfileService.java:113 | Wrapping an intermediate sum does not change the final wrapped sum. |
| JavaInt.AddIntTwice | src/main/java/com/spotlight/platform/userprofile/api/core/profile/UserProfileService.java:113 | Two `int` additions in a row equal one wrap of the exact total. |
| JavaInt.WrapOverflow | src/main/java/com/spotlight/platform/userprofile/api/core/profile/UserProfileService.java:113 | `MAX_VALUE + 1` is `MIN_VALUE`, and `MIN_VALUE - 1` is `MAX_VALUE`. |
| JavaText.DropTrailingEmpty | src/main/java/com/spotlight/platform/userprofile/api/core/profile/UserProfileService.java:145 | The result is a prefix whose last piece is not empty, and every piece dropped is empty. |
| JavaText.StripRemovesNoise | src/main/java/com/spotlight/platform/userprofile/api/core/profile/UserProfileService.java:141-144 | After the deletion, no `[`, `]` or `\s` character is left. |
| JavaText.StripClean | src/main/java/com/spotlight/platform/userprofile/api/core/profile/UserProfileService.java:141-144 | The deletion leaves a text that has none of those characters unchanged. |
| JavaText.StripConcat | src/main/java/com/spotlight/platform/userprofile/api/core/profile/UserProfileService.java:141-144 | The deletion distributes over concatenation. |
| JavaText.StripJoin | src/main/java/com/spotlight/platform/userprofile/api/core/profile/UserProfileService.java:141-145 | Deleting from a `", "`-joined list of clean pieces leaves the `","`-joined pieces. |
| JavaText.SplitAllPieces | src/main/java/com/spotlight/platform/userprofile/api/core/profile/UserProfileService.java:145 | No piece between separators holds the separator, and every character in a piece comes from the input. |
| JavaText.JavaSplitPieces | src/main/java/com/spotlight/platform/userprofile/api/core/profile/UserProfileService.java:145 | The same holds for the pieces `split(",")` returns. |
| JavaText.JoinSplitAll | src/main/java/com/spotlight/platform/userprofile/api/core/profile/UserProfileService.java:145 | Joining all the pieces with the separator gives back the input. |
| JavaText.SplitAllJoin | src/main/java/com/spotlight/platform/userprofile/api/core/profile/UserProfileService.java:145 | Splitting a join of separator-free pieces gives back the pieces. |
| JavaText.JavaSplitJoin | src/main/java/com/spotlight/platform/userprofile/api/core/profile/UserProfileService.java:145 | `split(",")` of such a join gives back the pieces when the last piece is not empty. |
| JavaText.SplitExamples | src/main/java/com/spotlight/platform/userprofile/api/core/profile/UserProfileService.java:145 | `"a,"` gives `["a"]`, `","` gives `[]`, `""` gives `[""]`, and `",a"` gives `["", "a"]`. |
| Merge.ContentListClean | src/main/java/com/spotlight/platform/userprofile/api/core/profile/UserProfileService.java:141-147 | No element of `getContentListFromProperty` holds a `[`, `]`, `\s` or `,`. |
| Merge.ContentListOfList | src/main/java/com/spotlight/platform/userprofile/api/core/profile/UserProfileService.java:141-147 | A list of clean elements whose last element is not empty, once rendered, parses back to the same list. |
| Merge.ContentListOfEmptyList | src/main/java/com/spotlight/platform/userprofile/api/core/profile/UserProfileService.java:141-147 | An empty list renders as `[]` and parses back as `[""]`. |
| Merge.ContentListDropsTrailingEmpty | src/main/java/com/spotlight/platform/userprofile/api/core/profile/UserProfileService.java:141-147 | `["a", ""]` parses back as `["a"]`. |
| Merge.MergeOnEmpty | src/main/java/com/spotlight/platform/userprofile/api/core/profile/UserProfileService.java:136-139 | Before any key is visited, the merge is the copy of the stored map. |
| Merge.MergeOnStep | src/main/java/com/spotlight/platform/userprofile/api/core/profile/UserProfileService.java:83-97 | At a key not yet visited, the copy still holds the stored value (or nothing). Putting the rule's value there extends the merge, and an aborting rule fails it. |
| Merge.MergeOnFailureGrows | src/main/java/com/spotlight/platform/userprofile/api/core/profile/UserProfileService.java:119-121 | Once a key aborts, the whole merge fails. |
| Merge.MergeOnFrame | src/main/java/com/spotlight/platform/userprofile/api/core/profile/UserProfileService.java:81-98 | A merge fails exactly when the rule aborts on some incoming key. On success its keys are the stored keys plus the incoming ones, keys not sent are unchanged, and each incoming key holds the rule's value. |
| Merge.CollectInto | src/main/java/com/spotlight/platform/userprofile/api/core/profile/UserProfileService.java:81-97 | The loop of `addValueToList` computes `CollectMerge` of the stored and incoming maps. |
| Merge.IncrementInto | src/main/java/com/spotlight/platform/userprofile/api/core/profile/UserProfileService.java:102-122 | The loop of `incrementValue` computes `IncrementMerge`, including its failure. |
| Merge.ReplaceInto | src/main/java/com/spotlight/platform/userprofile/api/core/profile/UserProfileService.java:127-131 | The loop of `replaceValue` computes `ReplaceMerge`. |
| Merge.CollectReplaceSucceed | src/main/java/com/spotlight/platform/userprofile/api/core/profile/UserProfileService.java:126-134 | COLLECT never fails. REPLACE is map override: the stored map plus the incoming entries, the incoming ones winning. |
| Merge.CollectStores | src/main/java/com/spotlight/platform/userprofile/api/core/profile/UserProfileService.java:86-96 | On a new key, COLLECT stores the incoming value unparsed. On a stored key it stores the parsed stored list followed by the parsed incoming list, order and duplicates kept. |
| Merge.CollectExtendsList | src/main/java/com/spotlight/platform/userprofile/api/core/profile/UserProfileService.java:86-92 | Appending to a list that COLLECT stored keeps that list's elements and adds the incoming ones after them. |
| Merge.IncrementFailsIff | src/main/java/com/spotlight/platform/userprofile/api/core/profile/UserProfileService.java:104-121 | INCREMENT fails exactly when some incoming value, or the stored value of some incoming key, is not an `int` numeral. |
| Merge.IncrementStores | src/main/java/com/spotlight/platform/userprofile/api/core/profile/UserProfileService.java:106-117 | On success, a new key holds the parsed incoming number. A stored key holds the wrapping sum of the parsed stored and incoming numbers. |
| Merge.IncrementOntoNumber | src/main/java/com/spotlight/platform/userprofile/api/core/profile/UserProfileService.java:108-115 | Incrementing a key that holds a number adds to that number, with wrap-around. |
| Merge.IncrementTwice | src/main/java/com/spotlight/platform/userprofile/api/core/profile/UserProfileService.java:106-117 | Increments add up. From a stored `x` (or none, as 0), adding `a` and then `b` stores the wrapped `x + a + b`. |
| Merge.ParseRenderNumber | src/main/java/com/spotlight/platform/userprofile/api/core/profile/UserProfileService.java:109-115 | A number that INCREMENT stored reads back as the same number. |
| Merge.ReplaceIdempotent | src/main/java/com/spotlight/platform/userprofile/api/core/profile/UserProfileService.java:129-131 | Repeating a REPLACE changes nothing more. |
| ProfileService.Lookup | src/main/java/com/spotlight/platform/userprofile/api/core/profile/UserProfileService.java:35-37 | `get` succeeds exactly when the user has a profile and then returns that stored profile. Otherwise it fails with `EntityNotFound`. |
| ProfileService.UserProfileDao.Get | src/main/java/com/spotlight/platform/userprofile/api/core/profile/UserProfileService.java:46 | The store answers with the stored profile, or with nothing, and records one read. |
| ProfileService.UserProfileDao.Put | src/main/java/com/spotlight/platform/userprofile/api/core/profile/UserProfileService.java:77 | The store keeps the profile under its own user id, replacing what was there, and records one write. |
| ProfileService.ValidateUserId | src/main/java/com/spotlight/platform/userprofile/api/core/profile/UserProfileService.java:61-65 | Passes exactly when the command's id equals the path id. Otherwise, `null` included, it fails with `InvalidUserId`. |
| ProfileService.GetUpdateCommand | src/main/java/com/spotlight/platform/userprofile/api/core/profile/UserProfileService.java:67-73 | Returns the command whose token is `type`. It fails with `InvalidUpdateCommand` exactly when `type` is none of the three tokens. |
| ProfileService.ReconcileFailsIff | src/main/java/com/spotlight/platform/userprofile/api/core/profile/UserProfileService.java:39-59 | An update fails exactly when: the ids differ; or the token is unknown; or an INCREMENT into a stored profile meets a value that is not an `int` numeral. |
| ProfileService.RejectedBeforeStore | src/main/java/com/spotlight/platform/userprofile/api/core/profile/UserProfileService.java:44-46 | A mismatched id is reported first, even with a bad token too. A rejected request makes no call on the store. |
| ProfileService.NewProfileStoresIncoming | src/main/java/com/spotlight/platform/userprofile/api/core/profile/UserProfileService.java:46-49 | A user with no profile gets the incoming map exactly, whatever the command. The store sees a read, one write, and a read. |
| ProfileService.ReconcileKeepsOtherKeys | src/main/java/com/spotlight/platform/userprofile/api/core/profile/UserProfileService.java:50-56 | Merging into a stored profile keeps every stored key and adds every incoming one. Stored keys that were not sent are unchanged. |
| ProfileService.UserProfileService.constructor | src/main/java/com/spotlight/platform/userprofile/api/core/profile/UserProfileService.java:30-33 | The service works on the store it is given. |
| ProfileService.UserProfileService.Get | src/main/java/com/spotlight/platform/userprofile/api/core/profile/UserProfileService.java:35-37 | Answers `Lookup` of the current store, with one read. |
| ProfileService.UserProfileService.Update | src/main/java/com/spotlight/platform/userprofile/api/core/profile/UserProfileService.java:39-59 | On failure, the store is unchanged and the error is `Reconcile`'s. On success, the store holds the reconciled properties stamped `now`, and the result equals what `get` reads afterwards. The reads and writes are exactly `Accesses`. |
| ProfileService.UserProfileService.ApplyCommand | src/main/java/com/spotlight/platform/userprofile/api/core/profile/UserProfileService.java:51-55 | Runs the command's merge on the stored profile, writing only when the merge succeeds. |
| ProfileService.UserProfileService.PersistUserProfile | src/main/java/com/spotlight/platform/userprofile/api/core/profile/UserProfileService.java:75-78 | One write of a profile stamped `now` holding the given map. |
| ProfileService.UserProfileService.LoadProperties | src/main/java/com/spotlight/platform/userprofile/api/core/profile/UserProfileService.java:136-139 | Returns the stored properties through one `get`, or `EntityNotFound`. |
| ProfileService.UserProfileService.AddValueToList | src/main/java/com/spotlight/platform/userprofile/api/core/profile/UserProfileService.java:80-99 | Writes `CollectMerge` of the stored properties after one read. |
| ProfileService.UserProfileService.IncrementValue | src/main/java/com/spotlight/platform/userprofile/api/core/profile/UserProfileService.java:101-124 | Writes `IncrementMerge` after one read. When that fails, it writes nothing and reports `InvalidProperty`. |
| ProfileService.UserProfileService.ReplaceValue | src/main/java/com/spotlight/platform/userprofile/api/core/profile/UserProfileService.java:126-134 | Writes `ReplaceMerge` after one read. |
| Scenarios.CollectTwice | src/main/java/com/spotlight/platform/userprofile/api/core/profile/UserProfileService.java:48-92 | For a new user, the first COLLECT of `["x"]` is stored raw. A second COLLECT of `["y"]` yields the list `"x"`, `"y"`, quotes kept. |
| Scenarios.CollectQuoted | src/main/java/com/spotlight/platform/userprofile/api/core/profile/UserProfileService.java:86-92 | COLLECT of one quoted character onto another gives the two-element list. |
| Scenarios.QuotedItem | src/main/java/com/spotlight/platform/userprofile/api/core/profile/UserProfileService.java:141-147 | `["c"]` parses to the single element `"c"`. |
| Scenarios.IncrementRun | src/main/java/com/spotlight/platform/userprofile/api/core/profile/UserProfileService.java:101-124 | On a profile without `n`, INCREMENT by "5" stores 5. Again by "5", it stores 10. By "x", it fails with `InvalidProperty`. |
| Scenarios.IncrementOnce | src/main/java/com/spotlight/platform/userprofile/api/core/profile/UserProfileService.java:106-117 | Incrementing the single key `n` by "5" stores the expected number. |
| Scenarios.ReplaceOne | src/main/java/com/spotlight/platform/userprofile/api/core/profile/UserProfileService.java:126-134 | REPLACE of `b` in `{a: 1, b: 2}` with 9 gives `{a: 1, b: 9}`. |

## Left out

- HTTP layer: the exception mappers, the request record `UserProfileCommand`, and JSON (de)serialisation are not part of this model. Errors are the `ServiceError` values.
- Resource layer: the integration test sends the token "COLLECT" through a resource class that is not part of this model. Here `fromType` rejects "COLLECT".
- `UserProfilePropertyValue` is not part of this model.
  - Values are strings, `int`s or string lists.
  - `getValue().toString()` is assumed to be the string itself, the decimal numeral, or `[a, b]` as `java.util.List` prints it.
  - `valueOf(propertyValue.getValue())` (line 95) and `valueOf(properties.get(name))` (line 130) are assumed to store the incoming value unchanged.
- The persistence behind `UserProfileDao` is not modelled: the store is an in-memory map whose `get` and `put` never throw, so exceptions the store itself could raise, which `update` would pass on, are not represented.
- The clock: `Instant.now(Clock.systemUTC())` (line 76) becomes the `now` parameter of `Update`.
- Dependency injection: the `@Inject` constructor becomes a plain constructor taking the store.
- `UserId` charset validation is not modelled: ids are any strings, and two are equal when their strings are.
- Concurrency is not modelled: every operation runs alone against the store.
- Null values are not modelled. A `null` property value makes `incrementValue` throw inside its `try`, which then reports `InvalidPropertyException`. Here property values are never null. Only the `type` token and the command's user id can be null, as `None`.
- JavaInt.ParseInt: accepts ASCII digits only. Java's `Character.digit` also accepts the other Unicode decimal digits.
