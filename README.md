# Free account-number pool

A Dafny model of `FreeAccountNumberService`, the allocator of account numbers in
the account service. Each account type has a counter row (`AccountNumbersSequence`)
and a pool of free, pre-generated numbers (`FreeAccountNumber` rows keyed by
`(typeCode, number)`).

- `generateFreeAccNumber` advances the type's counter by one.
  It formats `<typeCode><counter zero-padded to 20 digits>`, reads that text back as a `BigInteger` and saves it as a free row.
- `generateNewAccountNumbers(n, t)` repeats that step `n` times.
- `getFreeNumber` removes one free row of the type and returns its number.
  It fails with `NoFreeAccountNumber` when the pool is empty.
  When fewer than `MINIMAL_FREE_ACCOUNT_NUM` (5) rows remain after the take, it triggers a refill of 2.
  It notifies the caller's callback with `Generated number <n>`.
- `init` seeds 2 numbers each for `BUSINESS_CHECKING` and `FOREIGN_CURRENCY`.

Files:

- `wrappers.dfy`: `Option`, `Result` and `Outcome`. They stand for `Optional`, a value-or-exception return, and a void call that may throw.
- `account_number_format.dfy` (module `AccountNumberFormat`): the text format of the numbers.
  It covers `String.format("%s%020d", …)`, `new BigInteger(String)`, `BigInteger.toString()` and the arithmetic value of a formatted number.
  It also proves the round trips, the decoding `number % 10^20 == counter`, and that numbers increase strictly with the counter.
- `free_account_number_service.dfy` (module `FreeAccountNumbers`): the two repositories, as maps that the class `FreeAccountNumberService` reassigns.
  The class also has a ghost set of the numbers handed out so far.
  Its `Valid()` is `StoreInvariant` over the two tables and that set, which states the following:
  - every row is stored under its own id;
  - no free or handed-out number of a type is above the number of that type's current counter;
  - no handed-out number is still free.
  The generating methods state their whole new state through the functions `Advance`, `AddBatch` and `BatchRows`.
  The take states it as the old pool without the taken row's id.
  Lemmas about those functions give the counts, the freshness of generated numbers and the preservation of `StoreInvariant`.

The AccountType enum is not part of this model. Its `getValue()` is modelled as a `TypeCode`: a string of decimal digits.
`Init` takes the codes of `BUSINESS_CHECKING` and `FOREIGN_CURRENCY` as parameters.

Points where the code's behaviour is easy to misread:

- The code has no insert-if-absent check: pool inserts go through `save`, which merges by id.
  The model proves instead that a generated key is never already present (`GenerateFreeAccNumber`, `BatchAboveCeiling`).
- The remaining count is read synchronously, after the take (line 39). Only the refill itself is asynchronous.
- Nothing in the code limits a type to one refill in flight, so the model has no such limit.

## Model

| member | source | states |
|---|---|---|
| AccountNumberFormat.DecimalString | src/main/java/faang/school/accountservice/service/FreeAccountNumberService.java:49 | `toString`/`%d` text of a non-negative number: non-empty, all digits, no leading zero, reads back as the number |
| AccountNumberFormat.ZeroPad | src/main/java/faang/school/accountservice/service/FreeAccountNumberService.java:70 | `%020d` padding: length is the larger of 20 and the text's length, the original text is the suffix, the value is unchanged |
| AccountNumberFormat.FormatNumber | src/main/java/faang/school/accountservice/service/FreeAccountNumberService.java:70 | the formatted number starts with the type code, followed by a digit field at least 20 wide whose value is the counter |
| AccountNumberFormat.FormattedDigits | src/main/java/faang/school/accountservice/service/FreeAccountNumberService.java:70-75 | for a digit type code the formatted text is all digits and reads as the code shifted past the field, plus the counter |
| AccountNumberFormat.ParseFormattedNumber | src/main/java/faang/school/accountservice/service/FreeAccountNumberService.java:70-75 | `new BigInteger(format(code, counter))` never fails and yields the account number's value |
| AccountNumberFormat.ParseBigInteger | src/main/java/faang/school/accountservice/service/FreeAccountNumberService.java:73-75 | `new BigInteger(s)`: a non-empty digit string reads as its decimal value; a successful parse has at least one character (so the empty string fails), a lone non-digit character such as a sign fails, and a negative result only comes from a leading `-` |
| AccountNumberFormat.ParseRejects | src/main/java/faang/school/accountservice/service/FreeAccountNumberService.java:52 | `new BigInteger` fails on a non-digit outside the leading sign position |
| AccountNumberFormat.ToString | src/main/java/faang/school/accountservice/service/FreeAccountNumberService.java:49 | `BigInteger.toString()`: for `n >= 0` non-empty digits with value `n` and no leading zero; for `n < 0` a `-` followed by the digits of `-n`, again with no leading zero |
| AccountNumberFormat.ParseToString | src/main/java/faang/school/accountservice/service/FreeAccountNumberService.java:49-52 | `new BigInteger(n.toString())` is `n` for every integer, negative ones included |
| AccountNumberFormat.FieldWidthOfSmallCounter | src/main/java/faang/school/accountservice/service/FreeAccountNumberService.java:70 | a counter below 10^20 fills exactly the 20-digit field |
| AccountNumberFormat.DecodeAccountNumber | src/main/java/faang/school/accountservice/service/FreeAccountNumberService.java:70-75 | for counter < 10^20, `number % 10^20` is the counter and `number / 10^20` the type code's value |
| AccountNumberFormat.AccountNumberIncreasing | src/main/java/faang/school/accountservice/service/FreeAccountNumberService.java:65-75 | a larger counter gives a strictly larger number for the same type, also past 10^20 |
| AccountNumberFormat.DistinctCodesDistinctNumbers | src/main/java/faang/school/accountservice/service/FreeAccountNumberService.java:70-75 | types whose codes differ in value never share a number while counters stay below 10^20 |
| FreeAccountNumbers.BatchRowsBounds | src/main/java/faang/school/accountservice/service/FreeAccountNumberService.java:92-97 | every row of `n` generations from counter `c` is of type `t`, keyed by its own type and number, with a number above that of `c` and at most that of `c + n` |
| FreeAccountNumbers.BatchRowsSize | src/main/java/faang/school/accountservice/service/FreeAccountNumberService.java:92-97 | `n` generations save exactly `n` distinct rows |
| FreeAccountNumbers.BatchRowsComplete | src/main/java/faang/school/accountservice/service/FreeAccountNumberService.java:92-97 | the number of every counter value `c + 1 .. c + n` is among the saved rows |
| AccountNumberFormat.NewAccountNumber | src/main/java/faang/school/accountservice/service/FreeAccountNumberService.java:70-75 | formatting a counter and reading the text back with `new BigInteger` yields the account number's value |
| FreeAccountNumbers.AddBatchOne | src/main/java/faang/school/accountservice/service/FreeAccountNumberService.java:65-78 | one generation for a type with a counter row saves exactly one row, the one of the next counter value, under its own key |
| FreeAccountNumbers.AddBatchOneMore | src/main/java/faang/school/accountservice/service/FreeAccountNumberService.java:92-97 | `i` generations followed by one more are `i + 1` generations |
| FreeAccountNumbers.GeneratedKeyIsFresh | src/main/java/faang/school/accountservice/service/FreeAccountNumberService.java:65-78 | under the service invariant, the key a generation saves is neither free nor handed out |
| FreeAccountNumbers.RefillKeepsInvariant | src/main/java/faang/school/accountservice/service/FreeAccountNumberService.java:92-97 | any number of generations keeps the service invariant, handed-out numbers included |
| FreeAccountNumbers.BatchAboveCeiling | src/main/java/faang/school/accountservice/service/FreeAccountNumberService.java:65-78 | generated keys never coincide with a free or handed-out key of the type (the save never overwrites) |
| FreeAccountNumbers.AdvanceKeepsBelowCeiling | src/main/java/faang/school/accountservice/service/FreeAccountNumberService.java:65-68 | advancing a counter keeps every existing number at or below the type's latest number |
| FreeAccountNumbers.RefillKeepsStoreInvariant | src/main/java/faang/school/accountservice/service/FreeAccountNumberService.java:92-97 | a refill keeps every row under its own id and every number at or below its type's advanced ceiling |
| FreeAccountNumbers.RefillAddsRows | src/main/java/faang/school/accountservice/service/FreeAccountNumberService.java:92-97 | a refill of `n` for a configured type adds exactly `n` free rows of that type |
| FreeAccountNumbers.RefillLeavesOtherTypes | src/main/java/faang/school/accountservice/service/FreeAccountNumberService.java:92-97 | a refill for one type leaves every other type's free rows unchanged |
| FreeAccountNumbers.TakeThenRefillCount | src/main/java/faang/school/accountservice/service/FreeAccountNumberService.java:34-41 | a take followed by the refill of 2 leaves the type with one free row more than before |
| FreeAccountNumbers.SeedingsCommute | src/main/java/faang/school/accountservice/service/FreeAccountNumberService.java:86-87 | seeding two different types gives the same counters and the same pool in either order |
| FreeAccountNumbers.InitSeedsEachType | src/main/java/faang/school/accountservice/service/FreeAccountNumberService.java:84-87 | init's two seeding calls give each of two distinct configured types exactly 2 more free rows |
| FreeAccountNumbers.GeneratedMessage | src/main/java/faang/school/accountservice/service/FreeAccountNumberService.java:51 | the callback message is `Generated number ` followed by text that reads back as the returned number |
| FreeAccountNumbers.NewRow | src/main/java/faang/school/accountservice/service/FreeAccountNumberService.java:72-76 | the built row has the given type and number, and its id is made of that same type and number |
| FreeAccountNumbers.FreeAccountNumberService.FreeCount | src/main/java/faang/school/accountservice/service/FreeAccountNumberService.java:39 | the count of free rows of the type is at most the pool's size, and is 0 exactly when the pool holds no row of the type |
| FreeAccountNumbers.FreeAccountNumberService.constructor | src/main/java/faang/school/accountservice/service/FreeAccountNumberService.java:25-31 | the service over stored tables whose rows were generated from the counters; nothing handed out yet |
| FreeAccountNumbers.FreeAccountNumberService.TakeFreeNumber | src/main/java/faang/school/accountservice/service/FreeAccountNumberService.java:34 | deletes and returns one free row of the type (the stored row under its id), or returns nothing and changes nothing when the type has none |
| FreeAccountNumbers.FreeAccountNumberService.GenerateFreeAccNumber | src/main/java/faang/school/accountservice/service/FreeAccountNumberService.java:60-81 | TypeNotFound exactly when the type has no counter row, and then nothing changes; otherwise the counter goes up by one and the tables become those of one generation (`Advance`, `AddBatch` with 1), the saved key being neither free nor handed out before |
| FreeAccountNumbers.FreeAccountNumberService.GenerateNewAccountNumbers | src/main/java/faang/school/accountservice/service/FreeAccountNumberService.java:92-98 | TypeNotFound exactly when `n > 0` and the type has no counter row, with nothing changed; otherwise the counter goes up by exactly `n` (0 for `n <= 0`) and exactly the `n` batch rows are added |
| FreeAccountNumbers.FreeAccountNumberService.GetFreeNumber | src/main/java/faang/school/accountservice/service/FreeAccountNumberService.java:33-53 | empty pool: NoFreeAccountNumber, no callback, no refill, nothing changes. Otherwise it returns a number of the type's pool that was never handed out before and removes it. The callback gets one message naming it. A refill of 2 runs exactly when fewer than 5 rows remain after the take. |
| FreeAccountNumbers.FreeAccountNumberService.Init | src/main/java/faang/school/accountservice/service/FreeAccountNumberService.java:83-90 | seeds 2 numbers for each of the two types, the final state being the same in either order; a type without a counter row is skipped silently |

## Left out

- Asynchrony: `CompletableFuture.runAsync`, `.exceptionally` and `.thenRun` (lines 41-46, 93) are not modelled. The refill runs to completion right after the take, before `getFreeNumber` returns, so no other call interleaves with it. Its failure is dropped, as the future's exception never reaches the caller.
  `init` starts its two seedings as concurrent tasks, and their generations may interleave. The model runs one after the other. The final state is the same, because each generation is atomic and two different types share no counter and no rows (`SeedingsCommute`).
- FreeAccountNumbers.FreeAccountNumberService.GetFreeNumber: a failing callback is not modelled. If `action.accept` (line 51) throws, or `action` is null, `getFreeNumber` throws after the row was deleted (line 34) and the refill was triggered (line 41). The number is then neither returned nor back in the pool. The model always delivers the message and returns the number.
- `@Transactional`, `@Retryable` (5 attempts, 3 s backoff) and `synchronized` (lines 55-60) are not modelled. Each `generateFreeAccNumber` call is one atomic step, and persistence conflicts do not occur.
- Logging (`log.info`, `log.error`) and the `@PostConstruct` wiring of `init` are not modelled.
- Type codes that are not decimal digits are not modelled. With such a code, `new BigInteger` (lines 73, 75) would throw after the counter was saved. `TypeCode` admits only digit strings. Non-ASCII Unicode digits, which `new BigInteger` also accepts, are not modelled either.
- AccountNumberFormat.FormatNumber: assumes a default locale whose zero digit is `'0'`. `String.format` (line 70) writes the `%d` field, its zero padding included, in the digits of the default locale, for example Arabic-Indic digits under `ar-EG`. `FormatNumber`, `ZeroPad` and `DecimalString` always produce ASCII digits. Under any locale `new BigInteger` (lines 73, 75) reads the field to the same value, so the stored numbers are the same; only the intermediate text differs.
- AccountNumberFormat.ParseBigInteger: accepts ASCII digits only. `new BigInteger` also accepts other Unicode decimal digits, which this model rejects. `toString` emits ASCII digits. `%d` emits the digits of the default locale, which `new BigInteger` reads to the same value.
- Negative counter values are not modelled; a counter is a `nat`.
- The codes of the AccountType enum are not part of this model: `Init` takes the two codes as parameters.
- `FreeAccountNumberRepository.getFreeAccountNumber` is not part of this model. The take is modelled as delete-and-return of an arbitrary row of the type, as the sibling repository's query intends (repository/FreeAccountNumbersRepository.java:14). The misspelled `RETERNING` in that query is not modelled.
- The JPA repositories are in-memory maps.
- `MapToJsonConverter` and `AccountMapper` are not modelled. The first delegates to Jackson; the second is a generated field-to-field mapper.
- FreeAccountNumbers.FreeAccountNumberService.constructor: requires the stored rows to be well keyed and at or below their type's latest number. This states that the stored data came from `generateFreeAccNumber`; the Java constructor checks nothing.
