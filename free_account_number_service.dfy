/** The free account-number pool of FreeAccountNumberService: a counter row per
    account type (AccountNumbersSequence) and a table of pre-generated numbers
    keyed by (type, number) (FreeAccountNumber). */
module FreeAccountNumbers {
  import opened Wrappers
  import opened AccountNumberFormat

  /** `AccountType.getValue()`: the code of an account type, used as the
      number prefix and as the key of both repositories. */
  type TypeCode = s: string | IsDecimal(s) witness ""

  /** MINIMAL_FREE_ACCOUNT_NUM: the low-water mark of a type's pool. */
  const MinimalFreeAccountNum: nat := 5

  /** The batch size passed to generateNewAccountNumbers by the low-water
      refill and by init. */
  const RefillBatchSize: nat := 2

  datatype FreeAccountNumberKey = FreeAccountNumberKey(accountType: TypeCode, accountNumber: int)

  datatype FreeAccountNumber = FreeAccountNumber(id: FreeAccountNumberKey, accountType: TypeCode, accountNumber: int)

  datatype ServiceError =
    | NoFreeAccountNumber(accountType: TypeCode)
    | TypeNotFound(accountType: TypeCode)

  /** The AccountNumbersSequence table: the current counter of each type that has a row. */
  type Sequences = map<TypeCode, nat>

  /** The FreeAccountNumber table, rows by their id. */
  type FreeNumbers = map<FreeAccountNumberKey, FreeAccountNumber>

  /** The row the builder creates for a generated number. */
  function NewRow(t: TypeCode, number: int): (r: FreeAccountNumber)
    ensures r.accountType == t && r.accountNumber == number
    ensures r.id == FreeAccountNumberKey(r.accountType, r.accountNumber)
  {
    FreeAccountNumber(FreeAccountNumberKey(t, number), t, number)
  }

  /** Every row is stored under its own id, and its type and number are those of the id. */
  ghost predicate WellKeyed(rows: FreeNumbers) {
    forall k :: k in rows ==> rows[k] == NewRow(k.accountType, k.accountNumber)
  }

  /** The last number generated for type `t`: the one its current counter gives. */
  function Ceiling(seqs: Sequences, t: TypeCode): int
    requires t in seqs
  {
    AccountNumberValue(t, seqs[t])
  }

  /** Every key of a type that has a counter row lies at or below that type's ceiling. */
  ghost predicate BelowCeiling(keys: set<FreeAccountNumberKey>, seqs: Sequences) {
    forall k :: k in keys && k.accountType in seqs ==> k.accountNumber <= Ceiling(seqs, k.accountType)
  }

  /** The service's invariant over its two tables and the numbers it has
      handed out: rows are well keyed, no free or handed-out number lies above
      its type's ceiling, and no handed-out number is still free. */
  ghost predicate StoreInvariant(rows: FreeNumbers, handed: set<FreeAccountNumberKey>, seqs: Sequences) {
    && WellKeyed(rows)
    && BelowCeiling(rows.Keys, seqs)
    && BelowCeiling(handed, seqs)
    && rows.Keys !! handed
  }

  /** The free rows of type `t`; their number is what
      `getFreeAccountNumberCountByType` counts. */
  function RowsOf(rows: FreeNumbers, t: TypeCode): set<FreeAccountNumberKey> {
    set k | k in rows && k.accountType == t
  }

  /** A subset is no larger than the set that holds it. */
  lemma {:induction false} SubsetSize<T>(a: set<T>, b: set<T>)
    requires a <= b
    ensures |a| <= |b|
    decreases |b|
  {
    if a != {} {
      var x :| x in a;
      SubsetSize(a - {x}, b - {x});
    }
  }

  /** The rows saved by `n` successive generateFreeAccNumber calls for `t`,
      starting from counter value `from`. */
  function BatchRows(t: TypeCode, from: nat, n: nat): FreeNumbers {
    if n == 0 then map[]
    else
      var number := AccountNumberValue(t, from + n);
      BatchRows(t, from, n - 1)[FreeAccountNumberKey(t, number) := NewRow(t, number)]
  }

  /** The counter table after `n` successful increments of `t` (none when `t` has no row). */
  function Advance(seqs: Sequences, t: TypeCode, n: nat): Sequences {
    if t in seqs then seqs[t := seqs[t] + n] else seqs
  }

  /** The free-number table after `n` successful generations for `t`. */
  function AddBatch(rows: FreeNumbers, seqs: Sequences, t: TypeCode, n: nat): FreeNumbers {
    if t in seqs then rows + BatchRows(t, seqs[t], n) else rows
  }

  /** The message handed to the caller's callback. */
  const MessagePrefix: string := "Generated number "

  /** `MessageFormat.format("Generated number {0}", text)`: the prefix, then
      text that reads back as the number itself. */
  function GeneratedMessage(number: int): (r: string)
    ensures |r| > |MessagePrefix| && r[..|MessagePrefix|] == MessagePrefix
    ensures ParseBigInteger(r[|MessagePrefix|..]) == Some(number)
  {
    var r := MessagePrefix + ToString(number);
    assert r[|MessagePrefix|..] == ToString(number);
    ParseToString(number);
    r
  }

  /** Every row of a batch of `n` generations is of type `t`, well keyed, and
      its number lies above the number of counter value `from` (so above
      everything generated before) and at most at the one of `from + n`. */
  lemma {:induction false} BatchRowsBounds(t: TypeCode, from: nat, n: nat)
    ensures forall k :: k in BatchRows(t, from, n) ==>
              && BatchRows(t, from, n)[k] == NewRow(k.accountType, k.accountNumber)
              && k.accountType == t
              && AccountNumberValue(t, from) < k.accountNumber <= AccountNumberValue(t, from + n)
  {
    hide AccountNumberValue;
    if n > 0 {
      BatchRowsBounds(t, from, n - 1);
      AccountNumberIncreasing(t, from + n - 1, from + n);
      AccountNumberIncreasing(t, from, from + n);
    }
  }

  /** A batch of `n` generations holds exactly `n` distinct numbers. */
  lemma {:induction false} BatchRowsSize(t: TypeCode, from: nat, n: nat)
    ensures |BatchRows(t, from, n)| == n
  {
    if n > 0 {
      var prev := BatchRows(t, from, n - 1);
      var number := AccountNumberValue(t, from + n);
      var key := FreeAccountNumberKey(t, number);
      assert BatchRows(t, from, n) == prev[key := NewRow(t, number)];
      BatchRowsSize(t, from, n - 1);
      assert key !in prev by {
        BatchRowsBounds(t, from, n - 1);
        AccountNumberIncreasing(t, from + n - 1, from + n);
      }
    }
  }

  /** The number of every counter value `from + 1 .. from + n` is in the batch. */
  lemma {:induction false} BatchRowsComplete(t: TypeCode, from: nat, n: nat, c: nat)
    requires from < c <= from + n
    ensures FreeAccountNumberKey(t, AccountNumberValue(t, c)) in BatchRows(t, from, n)
  {
    if c < from + n {
      BatchRowsComplete(t, from, n - 1, c);
    }
  }

  /** A refill batch never collides with a key below the ceiling: neither with
      a free row nor with a number already handed out. */
  lemma BatchAboveCeiling(keys: set<FreeAccountNumberKey>, seqs: Sequences, t: TypeCode, n: nat)
    requires BelowCeiling(keys, seqs) && t in seqs
    ensures keys !! BatchRows(t, seqs[t], n).Keys
  {
    BatchRowsBounds(t, seqs[t], n);
  }

  /** Advancing a counter keeps every existing key below the ceiling. */
  lemma AdvanceKeepsBelowCeiling(keys: set<FreeAccountNumberKey>, seqs: Sequences, t: TypeCode, n: nat)
    requires BelowCeiling(keys, seqs)
    ensures BelowCeiling(keys, Advance(seqs, t, n))
  {
    if t in seqs && n > 0 {
      AccountNumberIncreasing(t, seqs[t], seqs[t] + n);
    }
  }

  /** A refill keeps the free-number table well keyed and below the advanced ceiling. */
  lemma RefillKeepsStoreInvariant(rows: FreeNumbers, seqs: Sequences, t: TypeCode, n: nat)
    requires WellKeyed(rows) && BelowCeiling(rows.Keys, seqs)
    ensures WellKeyed(AddBatch(rows, seqs, t, n))
    ensures BelowCeiling(AddBatch(rows, seqs, t, n).Keys, Advance(seqs, t, n))
  {
    AdvanceKeepsBelowCeiling(rows.Keys, seqs, t, n);
    if t in seqs {
      BatchRowsBounds(t, seqs[t], n);
    }
  }

  /** A refill of `n` for a type with a counter row adds exactly `n` free rows
      of that type. */
  lemma RefillAddsRows(rows: FreeNumbers, seqs: Sequences, t: TypeCode, n: nat)
    requires BelowCeiling(rows.Keys, seqs) && t in seqs
    ensures |RowsOf(AddBatch(rows, seqs, t, n), t)| == |RowsOf(rows, t)| + n
  {
    hide BatchRows, AccountNumberValue, BelowCeiling;
    var batch := BatchRows(t, seqs[t], n);
    BatchRowsBounds(t, seqs[t], n);
    BatchRowsSize(t, seqs[t], n);
    BatchAboveCeiling(rows.Keys, seqs, t, n);
    RowsOfMerge(rows, batch, t);
    assert RowsOf(rows, t) !! batch.Keys;
  }

  /** Merging rows all of type `t` into a table adds exactly their keys to
      the free rows of `t`. */
  lemma RowsOfMerge(rows: FreeNumbers, batch: FreeNumbers, t: TypeCode)
    requires forall k :: k in batch ==> k.accountType == t
    ensures RowsOf(rows + batch, t) == RowsOf(rows, t) + batch.Keys
  {
  }

  /** A refill keeps the service's invariant: the new numbers lie above
      everything free or handed out and become the type's new ceiling. */
  lemma RefillKeepsInvariant(rows: FreeNumbers, handed: set<FreeAccountNumberKey>, seqs: Sequences, t: TypeCode, n: nat)
    requires StoreInvariant(rows, handed, seqs)
    ensures StoreInvariant(AddBatch(rows, seqs, t, n), handed, Advance(seqs, t, n))
  {
    RefillKeepsStoreInvariant(rows, seqs, t, n);
    AdvanceKeepsBelowCeiling(handed, seqs, t, n);
    if t in seqs {
      BatchAboveCeiling(handed, seqs, t, n);
    }
  }

  /** The key a generation saves was neither free nor handed out before. */
  lemma GeneratedKeyIsFresh(rows: FreeNumbers, handed: set<FreeAccountNumberKey>, seqs: Sequences, t: TypeCode)
    requires StoreInvariant(rows, handed, seqs) && t in seqs
    ensures var key := FreeAccountNumberKey(t, AccountNumberValue(t, seqs[t] + 1));
            key !in rows && key !in handed
  {
    AccountNumberIncreasing(t, seqs[t], seqs[t] + 1);
  }

  /** A refill for `t` leaves the free rows of every other type as they were. */
  lemma RefillLeavesOtherTypes(rows: FreeNumbers, seqs: Sequences, t: TypeCode, n: nat, u: TypeCode)
    requires u != t
    ensures RowsOf(AddBatch(rows, seqs, t, n), u) == RowsOf(rows, u)
  {
    if t in seqs {
      BatchRowsBounds(t, seqs[t], n);
    }
  }

  /** A low-water refill right after a take leaves the type with one free row
      more than before the take (one taken, RefillBatchSize added). */
  lemma TakeThenRefillCount(rows: FreeNumbers, seqs: Sequences, t: TypeCode, taken: FreeAccountNumberKey)
    requires BelowCeiling(rows.Keys, seqs) && t in seqs && taken in RowsOf(rows, t)
    ensures |RowsOf(AddBatch(rows - {taken}, seqs, t, RefillBatchSize), t)| == |RowsOf(rows, t)| + 1
  {
    assert RowsOf(rows - {taken}, t) == RowsOf(rows, t) - {taken};
    RefillAddsRows(rows - {taken}, seqs, t, RefillBatchSize);
  }

  /** The two seeding calls of init give each of two distinct configured types
      exactly RefillBatchSize more free rows. */
  lemma InitSeedsEachType(rows: FreeNumbers, seqs: Sequences, businessChecking: TypeCode, foreignCurrency: TypeCode)
    requires WellKeyed(rows) && BelowCeiling(rows.Keys, seqs)
    requires businessChecking in seqs && foreignCurrency in seqs && businessChecking != foreignCurrency
    ensures var seeded := AddBatch(AddBatch(rows, seqs, businessChecking, RefillBatchSize),
                                   Advance(seqs, businessChecking, RefillBatchSize),
                                   foreignCurrency, RefillBatchSize);
            && |RowsOf(seeded, businessChecking)| == |RowsOf(rows, businessChecking)| + RefillBatchSize
            && |RowsOf(seeded, foreignCurrency)| == |RowsOf(rows, foreignCurrency)| + RefillBatchSize
  {
    var seqs1 := Advance(seqs, businessChecking, RefillBatchSize);
    var rows1 := AddBatch(rows, seqs, businessChecking, RefillBatchSize);
    RefillKeepsStoreInvariant(rows, seqs, businessChecking, RefillBatchSize);
    RefillAddsRows(rows, seqs, businessChecking, RefillBatchSize);
    RefillLeavesOtherTypes(rows, seqs, businessChecking, RefillBatchSize, foreignCurrency);
    RefillAddsRows(rows1, seqs1, foreignCurrency, RefillBatchSize);
    RefillLeavesOtherTypes(rows1, seqs1, foreignCurrency, RefillBatchSize, businessChecking);
  }

  /** Seeding two different types gives the same tables in either order, so
      init's two concurrent seedings end in one state however they interleave. */
  lemma SeedingsCommute(rows: FreeNumbers, seqs: Sequences, t1: TypeCode, t2: TypeCode, n1: nat, n2: nat)
    requires t1 != t2
    ensures Advance(Advance(seqs, t1, n1), t2, n2) == Advance(Advance(seqs, t2, n2), t1, n1)
    ensures AddBatch(AddBatch(rows, seqs, t1, n1), Advance(seqs, t1, n1), t2, n2)
         == AddBatch(AddBatch(rows, seqs, t2, n2), Advance(seqs, t2, n2), t1, n1)
  {
    hide BatchRows, AccountNumberValue;
    if t1 in seqs && t2 in seqs {
      var b1 := BatchRows(t1, seqs[t1], n1);
      var b2 := BatchRows(t2, seqs[t2], n2);
      BatchRowsBounds(t1, seqs[t1], n1);
      BatchRowsBounds(t2, seqs[t2], n2);
      assert b1.Keys !! b2.Keys;
      assert rows + b1 + b2 == rows + b2 + b1;
    }
  }

  /** Advancing by `i` and then by `j` is advancing by `i + j`. */
  lemma AdvanceTwice(seqs: Sequences, t: TypeCode, i: nat, j: nat)
    ensures Advance(Advance(seqs, t, i), t, j) == Advance(seqs, t, i + j)
  {
  }

  /** Generating no number adds no row. */
  lemma AddBatchNone(rows: FreeNumbers, seqs: Sequences, t: TypeCode)
    ensures AddBatch(rows, seqs, t, 0) == rows
  {
  }

  /** Merging into a map an updated map is updating the merge. */
  lemma MergeUpdate(a: FreeNumbers, b: FreeNumbers, k: FreeAccountNumberKey, v: FreeAccountNumber)
    ensures a + b[k := v] == (a + b)[k := v]
  {
  }

  /** A single generation for a type with a counter row saves exactly the row
      of the next counter value's number, under its own key. */
  lemma AddBatchOne(rows: FreeNumbers, seqs: Sequences, t: TypeCode)
    requires t in seqs
    ensures var number := AccountNumberValue(t, seqs[t] + 1);
            AddBatch(rows, seqs, t, 1) == rows[FreeAccountNumberKey(t, number) := NewRow(t, number)]
  {
    var number := AccountNumberValue(t, seqs[t] + 1);
    var key := FreeAccountNumberKey(t, number);
    assert BatchRows(t, seqs[t], 1) == BatchRows(t, seqs[t], 0)[key := NewRow(t, number)];
    MergeUpdate(rows, map[], key, NewRow(t, number));
    assert rows + map[] == rows;
  }

  /** Generating `i` numbers and then one more is generating `i + 1`. */
  lemma AddBatchOneMore(rows: FreeNumbers, seqs: Sequences, t: TypeCode, i: nat)
    ensures AddBatch(AddBatch(rows, seqs, t, i), Advance(seqs, t, i), t, 1) == AddBatch(rows, seqs, t, i + 1)
  {
    if t in seqs {
      var number := AccountNumberValue(t, seqs[t] + i + 1);
      AddBatchOne(AddBatch(rows, seqs, t, i), Advance(seqs, t, i), t);
      MergeUpdate(rows, BatchRows(t, seqs[t], i), FreeAccountNumberKey(t, number), NewRow(t, number));
    }
  }

  class FreeAccountNumberService {
    /** accountNumberSequenceRepository */
    var sequences: Sequences
    /** freeAccountNumberRepository */
    var freeNumbers: FreeNumbers
    /** Every number getFreeNumber has returned so far, with its type. */
    ghost var handedOut: set<FreeAccountNumberKey>

    /** Rows are well keyed; no free or handed-out number lies above its type's
        ceiling; no handed-out number is still free. */
    ghost predicate Valid()
      reads this
    {
      StoreInvariant(freeNumbers, handedOut, sequences)
    }

    /** The service over the stored tables, whose free rows were all produced
        by generateFreeAccNumber. */
    constructor (sequences: Sequences, freeNumbers: FreeNumbers)
      requires WellKeyed(freeNumbers) && BelowCeiling(freeNumbers.Keys, sequences)
      ensures Valid()
      ensures this.sequences == sequences && this.freeNumbers == freeNumbers && handedOut == {}
    {
      this.sequences := sequences;
      this.freeNumbers := freeNumbers;
      handedOut := {};
    }

    /** `getFreeAccountNumberCountByType`. */
    function FreeCount(t: TypeCode): (r: nat)
      reads this
      ensures r <= |freeNumbers|
      ensures r == 0 <==> forall k :: k in freeNumbers ==> k.accountType != t
    {
      var rows := RowsOf(freeNumbers, t);
      assert rows <= freeNumbers.Keys;
      SubsetSize(rows, freeNumbers.Keys);
      assert |rows| == 0 <==> forall k :: k in freeNumbers ==> k.accountType != t by {
        if |rows| == 0 {
          assert rows == {};
          forall k | k in freeNumbers ensures k.accountType != t {
            assert k !in rows;
          }
        } else {
          var k :| k in rows;
        }
      }
      |rows|
    }

    /** `getFreeAccountNumber`: delete one free row of type `t` and return it,
        or nothing when the type has none. */
    method TakeFreeNumber(t: TypeCode) returns (row: Option<FreeAccountNumber>)
      requires Valid()
      modifies this
      ensures Valid() && sequences == old(sequences) && handedOut == old(handedOut)
      ensures RowsOf(old(freeNumbers), t) == {} ==> row == None && freeNumbers == old(freeNumbers)
      ensures RowsOf(old(freeNumbers), t) != {} ==>
                && row.Some? && row.value.id in RowsOf(old(freeNumbers), t)
                && row.value == old(freeNumbers)[row.value.id]
                && freeNumbers == old(freeNumbers) - {row.value.id}
    {
      if k :| k in freeNumbers && k.accountType == t {
        assert k in RowsOf(freeNumbers, t);
        row := Some(freeNumbers[k]);
        freeNumbers := freeNumbers - {k};
      } else {
        assert RowsOf(freeNumbers, t) == {};
        row := None;
      }
    }

    /** `generateFreeAccNumber`: advance the type's counter by one, format
        and read back the new number, and save it as a free row under a key
        that was neither free nor handed out. Fails with TypeNotFound,
        changing nothing, when the type has no counter row. */
    method GenerateFreeAccNumber(t: TypeCode) returns (outcome: Outcome<ServiceError>)
      requires Valid()
      modifies this
      ensures Valid() && handedOut == old(handedOut)
      ensures outcome == if t in old(sequences) then Pass else Fail(TypeNotFound(t))
      ensures sequences == Advance(old(sequences), t, 1)
      ensures freeNumbers == AddBatch(old(freeNumbers), old(sequences), t, 1)
      ensures t in old(sequences) ==>
                var key := FreeAccountNumberKey(t, AccountNumberValue(t, old(sequences)[t] + 1));
                key !in old(freeNumbers) && key !in handedOut
    {
      hide StoreInvariant, BatchRows;
      if t !in sequences {
        return Fail(TypeNotFound(t));
      }
      RefillKeepsInvariant(freeNumbers, handedOut, sequences, t, 1);
      GeneratedKeyIsFresh(freeNumbers, handedOut, sequences, t);
      AddBatchOne(freeNumbers, sequences, t);
      var currentCount := sequences[t] + 1;
      sequences := sequences[t := currentCount];
      var number := NewAccountNumber(t, currentCount);
      var key := FreeAccountNumberKey(t, number);
      freeNumbers := freeNumbers[key := NewRow(t, number)];
      outcome := Pass;
    }

    /** `generateNewAccountNumbers(n, t)`: `n` generations in a row (none
        when `n <= 0`), stopping at the first failure; with no counter row for
        `t` the first one fails and nothing changes. */
    method GenerateNewAccountNumbers(n: int, t: TypeCode) returns (outcome: Outcome<ServiceError>)
      requires Valid()
      modifies this
      ensures Valid() && handedOut == old(handedOut)
      ensures outcome == if n > 0 && t !in old(sequences) then Fail(TypeNotFound(t)) else Pass
      ensures sequences == Advance(old(sequences), t, if n < 0 then 0 else n)
      ensures freeNumbers == AddBatch(old(freeNumbers), old(sequences), t, if n < 0 then 0 else n)
    {
      hide StoreInvariant, BatchRows;
      ghost var sequences0, freeNumbers0 := sequences, freeNumbers;
      AddBatchNone(freeNumbers, sequences, t);
      var i := 0;
      while i < n
        invariant 0 <= i <= (if n < 0 then 0 else n)
        invariant Valid() && handedOut == old(handedOut)
        invariant t !in sequences0 ==> i == 0
        invariant sequences == Advance(sequences0, t, i)
        invariant freeNumbers == AddBatch(freeNumbers0, sequences0, t, i)
      {
        var step := GenerateFreeAccNumber(t);
        if step.Fail? {
          return step;
        }
        AdvanceTwice(sequences0, t, i, 1);
        AddBatchOneMore(freeNumbers0, sequences0, t, i);
        i := i + 1;
      }
      outcome := Pass;
    }

    /** `getFreeNumber`: take one free number of type `t` (NoFreeAccountNumber
        when there is none, with nothing changed); when fewer than
        MinimalFreeAccountNum rows of the type remain after the take, run a
        refill of RefillBatchSize, whose failure is not reported; notify the
        caller with the number and return it. */
    method GetFreeNumber(t: TypeCode) returns (result: Result<int, ServiceError>, notified: seq<string>, refillTriggered: bool)
      requires Valid()
      modifies this
      ensures Valid()
      ensures RowsOf(old(freeNumbers), t) == {} ==>
                && result == Failure(NoFreeAccountNumber(t)) && notified == [] && !refillTriggered
                && sequences == old(sequences) && freeNumbers == old(freeNumbers) && handedOut == old(handedOut)
      ensures RowsOf(old(freeNumbers), t) != {} ==>
                && result.Success?
                && var taken := FreeAccountNumberKey(t, result.value);
                && var remaining := old(freeNumbers) - {taken};
                && taken in old(freeNumbers) && taken !in old(handedOut)
                && handedOut == old(handedOut) + {taken}
                && notified == [GeneratedMessage(result.value)]
                && refillTriggered == (|RowsOf(old(freeNumbers), t)| - 1 < MinimalFreeAccountNum)
                && sequences == (if refillTriggered then Advance(old(sequences), t, RefillBatchSize) else old(sequences))
                && freeNumbers == (if refillTriggered then AddBatch(remaining, old(sequences), t, RefillBatchSize) else remaining)
    {
      var row := TakeFreeNumber(t);
      if row.None? {
        return Failure(NoFreeAccountNumber(t)), [], false;
      }
      var taken := row.value;
      handedOut := handedOut + {taken.id};
      assert RowsOf(freeNumbers, t) == RowsOf(old(freeNumbers), t) - {taken.id};
      var count := FreeCount(t);
      refillTriggered := count < MinimalFreeAccountNum;
      if refillTriggered {
        var _ := GenerateNewAccountNumbers(RefillBatchSize, t);
      }
      var accountNumber := ToString(taken.accountNumber);
      notified := [MessagePrefix + accountNumber];
      ParseToString(taken.accountNumber);
      result := Success(ParseBigInteger(accountNumber).value);
    }

    /** `init`: seed RefillBatchSize numbers for BUSINESS_CHECKING and for
        FOREIGN_CURRENCY (the enum's codes are passed in); a failing seed is
        not reported and does not stop the other. The two seedings run as
        separate tasks; one after the other is one of their interleavings. */
    method Init(businessChecking: TypeCode, foreignCurrency: TypeCode)
      requires Valid()
      modifies this
      ensures Valid() && handedOut == old(handedOut)
      ensures sequences == Advance(Advance(old(sequences), businessChecking, RefillBatchSize), foreignCurrency, RefillBatchSize)
      ensures freeNumbers == AddBatch(AddBatch(old(freeNumbers), old(sequences), businessChecking, RefillBatchSize),
                                      Advance(old(sequences), businessChecking, RefillBatchSize),
                                      foreignCurrency, RefillBatchSize)
    {
      var _ := GenerateNewAccountNumbers(RefillBatchSize, businessChecking);
      var _ := GenerateNewAccountNumbers(RefillBatchSize, foreignCurrency);
    }
  }
}
