# Library loan lifecycle — a verified Dafny model

This project models the domain core of a library-management service: the
**loan aggregate** and its parts.

- A `Loan` moves Active → Returned → Completed, Active → Completed or
  Active → Lost. It owns an append-only list of `Fine`s.
- On return it charges a late fee of 1.50 EUR per whole day late.
- It caps the initial loan at 30 days and the extended loan at 90 days.
- A Returned loan completes by itself once no fine is pending.
- A `Fine` is Pending and then becomes Paid or Waived, once and for good.
- `Money` is an immutable, non-negative amount tagged with a currency. Its
  arithmetic is checked.
- The borrower rule decides for whom a loan may be opened. A member may only
  borrow for themselves; a librarian or an admin may borrow for anyone.
- Two near-identical `Book` classes are modelled too. Both have a validated
  factory, an in-place `UpdateDetails` and a reading-time estimate; the
  aggregate also has the availability flag and its two toggles.

Layout, one module per source file or shared concern:

- `common.dfy` (`Common`): `Option`, `Result`, `Outcome`. It also holds the
  three exception kinds as values, GUIDs, 32-bit `int`, and `DateTime` ticks
  with `TimeSpan.Days`.
- `text.dfy` (`Text`): `char.IsWhiteSpace`, `string.IsNullOrWhiteSpace`,
  `string.Length` in UTF-16 code units, `Trim`, `ToUpperInvariant` and the
  decimal rendering of an `int`.
- `money.dfy` (`ValueObjects`): `Money`.
- `fine.dfy` (`Fines`): the `Fine` class.
- `loan.dfy` (`Loans`): the `Loan` class, its status machine and `DetermineBorrowerId`.
- `book_rules.dfy` (`BookRules`): the arithmetic both `Book` classes share.
- `book_aggregate.dfy` (`BookAggregate`) and `book_entity.dfy` (`BookEntity`):
  the two `Book` classes.

Conventions:

- The clock and `Guid.NewGuid()` are parameters: `now` (ticks) and the fresh
  id of a fine or book.
- A thrown exception is an `Err`/`Fail` value that names its type. On every
  error path, the methods state that nothing changed.
- Classes whose fields the source updates in place are Dafny classes. Their
  `Valid()` invariant is required and re-established by every public
  operation. Three loan members work on weaker predicates:
  - `AddFine` needs only `FinesOwned()`, which says the fines are distinct and valid.
  - `Complete` and `CompleteWhenSettled` need only `Sound()`. This is `Valid()`
    without the rule that a Returned loan has a pending fine, because they run
    in the step where that rule is being restored.
- `Loan.Valid()` says:
  - the due date lies a whole number of days, between 1 and 90, after the loan date;
  - the return date is set exactly for Returned and Completed loans;
  - a Completed loan has no pending fine, and a Returned loan has at least one;
  - a Lost loan carries a replacement fee;
  - the fines are distinct, valid objects.
- `Money.Valid()` is what the private `Money` constructor guarantees: every
  value is built by `Create`, `Add`, `Subtract` or `MultiplyBy`. So the loan
  and fine operations that receive a `Money` require it to be valid.

## Model

| member | source | states |
|---|---|---|
| `Common.DaysBetween` | Library.Domain/Entities/Loan/Loan.cs:108 | `TimeSpan.Days` of a span: the whole days in it, truncated toward zero, for spans of either sign |
| `Common.DaysBetweenAddDays` | Library.Domain/Entities/Loan/Loan.cs:133 | measuring a due date set `n` whole days after a date gives back exactly `n` days |
| `Text.Trim` | Library.Domain/Entities/Loan/Loan.cs:171 | the trimmed string is a slice of the input whose cut-off ends are all white space; it is empty exactly when the input is blank, and otherwise starts and ends with a non-white-space character |
| `Text.ToUpperInvariant` | Library.Domain/ValueObjects/Money.cs:25 | upper-casing keeps the length and maps every character to its upper-case form |
| `Text.ToUpperIdempotent` | Library.Domain/ValueObjects/Money.cs:25 | upper-casing an upper-cased string changes nothing |
| `Text.ToUpperKeepsBlankness` | Library.Domain/ValueObjects/Money.cs:19-25 | a currency is blank after upper-casing exactly when it was blank before |
| `Text.Utf16Length` | Library.Domain/ValueObjects/Money.cs:22 | `string.Length` counts UTF-16 code units: two for a single character above U+FFFF and one for any other single character, between one and two per character in general, and exactly one per character when none lies above U+FFFF |
| `Text.Utf16LengthConcat` | Library.Domain/ValueObjects/Money.cs:22 | the `Length` of a concatenation is the sum of the lengths of its parts, so with the one-character values it fixes the length of every string |
| `Text.ToUpperKeepsUtf16Length` | Library.Domain/ValueObjects/Money.cs:22-25 | upper-casing does not change a string's `Length` |
| `Text.NatToString` | Library.Domain/Entities/Loan/Loan.cs:110 | the rendered day count is a non-empty digit string without a leading zero, whose decimal value is the count |
| `ValueObjects.Create` | Library.Domain/ValueObjects/Money.cs:14-26 | fails with an argument error exactly for a negative amount, a blank currency or a currency whose `Length` in UTF-16 code units is not 3 (letters are not checked); otherwise keeps the amount, upper-cases the currency and yields a valid `Money` |
| `ValueObjects.CreateCountsUtf16Units` | Library.Domain/ValueObjects/Money.cs:22 | a currency made of one character above U+FFFF and one letter is accepted, and one made of three such characters is refused |
| `ValueObjects.CreateRoundTrip` | Library.Domain/ValueObjects/Money.cs:25 | re-creating a valid `Money` from its own amount and currency gives back the same value |
| `ValueObjects.CreateIdempotent` | Library.Domain/ValueObjects/Money.cs:14-26 | creating again from the currency that `Create` produced gives the same result |
| `ValueObjects.Money.Add` | Library.Domain/ValueObjects/Money.cs:28-34 | fails with an invalid-operation error exactly when the currencies differ; otherwise the sum in the same currency, valid when both operands are |
| `ValueObjects.AddCommutative` | Library.Domain/ValueObjects/Money.cs:28-34 | `a.Add(b)` and `b.Add(a)` both fail or are equal |
| `ValueObjects.Money.Subtract` | Library.Domain/ValueObjects/Money.cs:36-45 | fails with an invalid-operation error exactly for different currencies or a larger subtrahend; otherwise a non-negative difference that adds back to the minuend |
| `ValueObjects.SubtractThenAdd` | Library.Domain/ValueObjects/Money.cs:36-45 | `a.Subtract(b).Add(b) == a` whenever the subtraction succeeds |
| `ValueObjects.Money.MultiplyBy` | Library.Domain/ValueObjects/Money.cs:47-53 | fails with an argument error exactly for a negative multiplier; otherwise keeps the currency and validity and scales the amount |
| `ValueObjects.MultiplyByOne` | Library.Domain/ValueObjects/Money.cs:47-53 | multiplying by one returns the same `Money` |
| `ValueObjects.Money.Equals` | Library.Domain/ValueObjects/Money.cs:59-65 | structural equality holds exactly when the other value is present and equal in amount and currency |
| `ValueObjects.EqualsIsEquivalence` | Library.Domain/ValueObjects/Money.cs:59-65 | `Equals` is reflexive, symmetric and transitive, and never true against null |
| `ValueObjects.OpEquals` | Library.Domain/ValueObjects/Money.cs:69 | `==` holds exactly for equal values or two nulls, and agrees with `Equals` when the left side is present |
| `ValueObjects.OpNotEquals` | Library.Domain/ValueObjects/Money.cs:70 | `!=` holds exactly when the operands differ |
| `Fines.WaivedReason` | Library.DataAccess/Entities/Fine.cs:70 | the waived reason extends the old reason, and stays non-blank |
| `Fines.Fine.Create` | Library.DataAccess/Entities/Fine.cs:27-41 | a null amount is an argument-null error and a blank reason an argument error; otherwise a fresh, valid, pending fine with the given id, type, amount, reason and issue date, and no payment date or reference |
| `Fines.Fine.Pay` | Library.DataAccess/Entities/Fine.cs:43-57 | succeeds exactly for a pending fine and a non-blank reference; a paid or waived fine is refused with an invalid-operation error before the reference is checked, a blank reference is an argument error, and failures change nothing; success makes the fine Paid with payment date and reference and keeps its reason; the status only ever leaves Pending |
| `Fines.Fine.Waive` | Library.DataAccess/Entities/Fine.cs:59-72 | succeeds exactly for a pending fine and a non-blank waiver reason; the same refusals in the same order, then a blank reason is an argument error; success makes the fine Waived, appends the waiver to the reason and records no payment |
| `Fines.Fine.GetDaysOverdue` | Library.DataAccess/Entities/Fine.cs:18 | zero unless the fine is pending; for a pending fine, the whole days since it was issued |
| `Loans.DetermineBorrowerId` | Library.Domain/Entities/Loan/Loan.cs:33-57 | no user is an argument error; a missing or unparsable id claim is an invalid-operation error; it succeeds exactly when no borrower is requested, the requested one is the user, or the user is a librarian or admin; the result is the requested id, or else the user's own; a user without those roles only ever gets their own id |
| `Loans.Eur` | Library.Domain/Entities/Loan/Loan.cs:152 | a fee amount in euros builds a valid `Money` with that amount |
| `Loans.LateFeeAmount` | Library.Domain/Entities/Loan/Loan.cs:108-109 | the late fee is a valid euro amount of 1.50 per whole day late |
| `Loans.LateFeeReason` | Library.Domain/Entities/Loan/Loan.cs:110 | the late-fee reason is never blank |
| `Loans.DamageFeeReason` | Library.Domain/Entities/Loan/Loan.cs:171 | the damage reason is never blank and ends with the trimmed description |
| `Loans.AnyPending` | Library.Domain/Entities/Loan/Loan.cs:230 | true exactly when some fine in the list is pending |
| `Loans.FirstWithId` | Library.Domain/Entities/Loan/Loan.cs:196-198 | none exactly when no fine has the id; otherwise the position of the first fine that has it |
| `Loans.ExtendedDurationAsWritten` | Library.Domain/Entities/Loan/Loan.cs:133-136 | the extension total computed in 32-bit `int`: exact while it fits, negative once the true sum passes `int.MaxValue` |
| `Loans.ExtensionOverflowPassesCap` | Library.Domain/Entities/Loan/Loan.cs:133-137 | for every possible loan duration, an extension of `int.MaxValue` days exceeds 90 days in truth yet passes the cap as computed |
| `Loans.Loan.Create` | Library.Domain/Entities/Loan/Loan.cs:60-97 | an empty book or borrower id, a blank name or e-mail, or a duration outside 1 to 30 days (14 when not given) is an argument error, and every other input succeeds; success is a fresh valid Active loan with no fines and no return date, due the given number of days after `now` |
| `Loans.Loan.AddFine` | Library.Domain/Entities/Loan/Loan.cs:175-179 | appends exactly one fresh pending fine, keeps every earlier fine, and changes no other field |
| `Loans.Loan.Return` | Library.Domain/Entities/Loan/Loan.cs:99-119 | a loan that is not Active is refused with an invalid-operation error and nothing changes; otherwise the return date is set; a return after the due date appends exactly one pending late fee (0.00 EUR under a whole day), otherwise nothing is added; the loan ends Returned if a fine is pending and Completed if none is |
| `Loans.Loan.ExtendDueDate` | Library.Domain/Entities/Loan/Loan.cs:121-141 | succeeds exactly for an Active, not overdue loan, a positive extension and a total of at most 90 days; refusals come in this order: a loan that is not Active, a non-positive extension, an overdue loan, a total above 90 days; a refusal changes nothing; success moves only the due date, by exactly the extension |
| `Loans.Loan.MarkAsLost` | Library.Domain/Entities/Loan/Loan.cs:144-154 | a loan that is not Active is refused with an invalid-operation error; otherwise it becomes Lost with no return date and one pending replacement fee of the given cost, or 20.00 EUR |
| `Loans.Loan.ReportDamage` | Library.Domain/Entities/Loan/Loan.cs:156-172 | succeeds exactly for a loan that is neither Lost nor Completed, a non-blank description and a present, positive cost; refusals come in that order, each with its own error kind, and change nothing; success appends one pending damage fee whose reason carries the trimmed description, and leaves the status alone |
| `Loans.Loan.Complete` | Library.Domain/Entities/Loan/Loan.cs:181-192 | succeeds exactly for a Returned loan without pending fines and then makes it Completed; on a loan between operations it always fails, because auto-completion has already happened |
| `Loans.Loan.CompleteWhenSettled` | Library.Domain/Entities/Loan/Loan.cs:203-206 | the completion step after a return or a settled fine: a Returned loan with no pending fine becomes Completed, any other loan keeps its status, nothing else changes, and the loan invariant holds afterwards |
| `Loans.AnyPendingAppend` | Library.Domain/Entities/Loan/Loan.cs:230 | appending a fine to a loan's list adds a pending fine exactly when the new fine is pending |
| `Loans.Loan.PayFine` | Library.Domain/Entities/Loan/Loan.cs:194-207 | succeeds exactly when some fine has the id, the first such fine is pending and the reference is not blank; an unknown id is an argument error; otherwise the fine's own refusals pass through and change nothing; on success that fine is paid and no other fine changes; a Returned loan left with no pending fine becomes Completed, and any other loan keeps its status |
| `Loans.Loan.WaiveFine` | Library.Domain/Entities/Loan/Loan.cs:209-220 | the same as paying, with the fine waived instead: succeeds exactly when the first fine with the id is pending and the waiver reason is not blank |
| `Loans.Loan.GetDaysOverdue` | Library.Domain/Entities/Loan/Loan.cs:226 | never negative; zero unless the loan is overdue; otherwise the whole days past the due date |
| `Loans.Loan.GetLoanDuration` | Library.Domain/Entities/Loan/Loan.cs:227 | the whole days from the loan date to the return date, or to `now` while the book is out |
| `BookRules.ReadingMinutes` | Library.Domain/Aggregates/Book.cs:75-82 | while the word count fits in an `int`, the estimate is 5/4 minute a page truncated toward zero |
| `BookRules.ReadingMinutesMonotone` | Library.Domain/Entities/Book.cs:57-64 | more pages never give a smaller estimate within that range |
| `BookRules.ReadingMinutesWrapsAround` | Library.Domain/Aggregates/Book.cs:79-80 | one page past that range the unchecked word count wraps and the estimate becomes negative |
| `BookAggregate.Book.Create` | Library.Domain/Aggregates/Book.cs:27-48 | a blank title or empty author id is an argument error; otherwise a fresh valid book that keeps every given detail and starts available |
| `BookAggregate.Book.UpdateDetails` | Library.Domain/Aggregates/Book.cs:50-59 | a blank title is an argument error and changes nothing; otherwise title, year, pages and genre are replaced, while ISBN, author, creation time and availability stay as they were |
| `BookAggregate.Book.MarkAsAvailable` | Library.Domain/Aggregates/Book.cs:62-65 | the book is available afterwards and no detail changes, so repeating it changes nothing |
| `BookAggregate.Book.UnmarkAsLoaned` | Library.Domain/Aggregates/Book.cs:67-70 | the book is unavailable afterwards and no detail changes, so repeating it changes nothing |
| `BookEntity.Book.Create` | Library.Domain/Entities/Book.cs:22-41 | a blank title or empty author id is an argument error; otherwise a fresh valid book with the given id and exactly the given details |
| `BookEntity.Book.UpdateDetails` | Library.Domain/Entities/Book.cs:43-52 | a blank title is an argument error and changes nothing; otherwise title, year, pages and genre are replaced, while id, ISBN, author and creation time stay as they were |

The predicates `IsActive`, `IsReturned` (true for Returned and for
Completed), `IsCompleted`, `IsOverdue`, `HasOutstandingFines`,
`Fine.IsPaid`, `Fine.IsPending`, and both books' `IsClassic` (year before
1950) and `IsNewRelease` are modelled as the expressions they are. The
contracts use the fields and `AnyPending(fines)` directly; only `IsOverdue`
appears in one (`Loan.GetDaysOverdue`).

Points of the code worth knowing, which the model follows:

- Creation accepts at most 30 days (Loan.cs:82). A test opens a 60-day loan
  (LoanTests.cs:174), which `Create` refuses. The checkout validator allows 90.
- A loan returned on time completes only if no fine is pending
  (Loan.cs:113-118). An earlier damage fee keeps it Returned.
- `ExtendDueDate` checks the extension's sign before checking for overdue
  (Loan.cs:126-130).
- A missing or unparsable user-id claim is an invalid-operation error, not an
  argument error (Loan.cs:38-40).
- The `Fine` class imports a data-access copy of `Money` that is not part of
  this model. Fines are modelled with the domain `Money`.

## Findings

| source | as written | input that shows it | evidently intended | confidence | as-written member | corrected member |
|---|---|---|---|---|---|---|
| Library.Domain/Entities/Loan/Loan.cs:133-137 | `currentDuration + additionalDays` is an unchecked 32-bit sum, so a huge extension wraps to a negative total and passes the 90-day cap; the loan is then refused only by `DateTime.AddDays` throwing `ArgumentOutOfRangeException` | an Active, not overdue 14-day loan and `ExtendDueDate(int.MaxValue)`: the wrapped total is −2147483635, not above 90 | every extension whose true total exceeds 90 days is refused with `InvalidOperationException` by the cap check | high for the wrap-around, medium for the exception that follows; not executed | `Loans.ExtendedDurationAsWritten` | `Loans.Loan.ExtendDueDate` |

`Loans.ExtensionOverflowPassesCap` proves the bypass for every duration a
loan can have. `Loans.Loan.ExtendDueDate` adds without overflow, refuses such
extensions and keeps the loan within 90 days.

## Left out

- HTTP endpoints, middleware, persistence, and the application command and
  query handlers are not modelled. Neither are validators, login, transactions
  and event handlers. They are plumbing around this core. The
  "book already on loan" check lives in the checkout handler.
- `Money.ToString` (`F2` formatting) and `Money.GetHashCode` are not modelled.
- `ValueObjects.Money.MultiplyBy`: amounts are exact reals. The model leaves
  out `decimal`'s 28–29 significant digits, the rounding of products, and
  `OverflowException`. The same holds for `Add` and for the late fee.
- `Text.ToUpperInvariant`: only the ASCII letters a–z are upper-cased. Other
  Unicode case mappings are not modelled.
- A null string stands as the empty string, because `IsNullOrWhiteSpace`
  treats the two alike. A null `Money` argument of a fine or loan operation
  is `None`.
- `ValueObjects.Money.Add` and `ValueObjects.Money.Subtract` take a non-null
  `Money`; the `NullReferenceException` for a null argument is not modelled.
- `Loans.DetermineBorrowerId`: claims parsing (`FindFirst`, `Guid.TryParse`)
  is abstracted into an actor carrying an optional parsed id and a set of role
  names.
- `Loans.Loan.Create`: the model reads the clock once, for both the loan date
  and the due date. The source reads `DateTime.UtcNow` twice, so its due date
  can fall a few ticks later than loan date plus duration.
- `Loans.Loan.Return` and `Loans.Loan.GetDaysOverdue` also use one `now`
  where the source reads the clock twice. In `Return`, the late fee's issue
  date equals the return date, while the source reads the clock again when
  it builds the `Fine`. In `GetDaysOverdue`, the overdue test and the day
  count see the same instant.
- `DateTime`'s range is not modelled: timestamps are unbounded ticks, so
  `AddDays` never throws `ArgumentOutOfRangeException`.
- The `AggregateRoot` base class is not part of this model. So the ids of
  `Loan` and of the aggregate `Book`, and the domain events, are left out.
- The `Author` navigation property, the EF Core parameterless constructors and
  the reflection-based test setup are not modelled.
- Exception messages and parameter names are not modelled; only the exception
  type is kept. In .NET, `ArgumentNullException` is a subclass of
  `ArgumentException`; the model keeps them distinct.
- `IsNewRelease` takes the current year as an input instead of reading
  `DateTime.Now`.
- `GetEstimatedReadingTime` returns whole minutes instead of a `TimeSpan`.
