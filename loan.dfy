/** The `Loan` aggregate: the state machine of a book loan
    (Active -> Returned -> Completed, Active -> Completed, Active -> Lost), the
    fines it owns, and the rule that decides for whom a loan may be created. */
module Loans {
  import opened Common
  import opened Text
  import opened ValueObjects
  import opened Fines

  datatype LoanStatus = Active | Returned | Lost | Completed {
    /** The status changes the state machine allows: staying put, leaving
        Active, or completing a returned loan. Lost and Completed are terminal. */
    predicate MayBecome(next: LoanStatus) {
      || this == next
      || this == Active
      || (this == Returned && next == Completed)
    }
  }

  const DefaultLoanDays: int := 14
  const MaxLoanDays: int := 30
  const MaxTotalLoanDays: int := 90
  const LateFeePerDay: real := 1.5
  const FeeCurrency: string := "EUR"
  const DefaultReplacementFee: real := 20.0
  const LibrarianRole: string := "Librarian"
  const AdminRole: string := "Admin"

  /** The authenticated user: the `NameIdentifier` claim parsed as a GUID
      (`None` when the claim is missing or does not parse) and the role claims. */
  datatype Actor = Actor(userId: Option<Guid>, roles: set<string>) {
    predicate CanLoanForOthers() {
      LibrarianRole in roles || AdminRole in roles
    }
  }

  /** `DetermineBorrowerId`: who the loan is for. A missing user is an argument
      error, an unusable id claim an invalid operation; a member may only
      borrow for themselves, a librarian or admin for anyone. */
  function DetermineBorrowerId(requested: Option<Guid>, currentUser: Option<Actor>): (r: Result<Guid>)
    ensures currentUser.None? ==> r == Err(ArgumentException)
    ensures currentUser.Some? ==> (r.Err? ==> r.error == InvalidOperationException)
    ensures currentUser.Some? && currentUser.value.userId.None? ==> r.Err?
    ensures r.Ok? <==>
              && currentUser.Some? && currentUser.value.userId.Some?
              && (|| requested.None?
                  || requested.value == currentUser.value.userId.value
                  || currentUser.value.CanLoanForOthers())
    ensures r.Ok? ==> r.value == (if requested.Some? then requested.value else currentUser.value.userId.value)
    ensures r.Ok? && !currentUser.value.CanLoanForOthers() ==> r.value == currentUser.value.userId.value
  {
    if currentUser.None? then Err(ArgumentException)
    else if currentUser.value.userId.None? then Err(InvalidOperationException)
    else
      var currentUserId := currentUser.value.userId.value;
      if requested.Some? then
        if !currentUser.value.CanLoanForOthers() && requested.value != currentUserId then
          Err(InvalidOperationException)
        else Ok(requested.value)
      else Ok(currentUserId)
  }

  /** A fee in euros, as `Money.Create(amount, "EUR")` builds it. */
  function Eur(amount: real): (m: Money)
    requires amount >= 0.0
    ensures m.Valid() && m.amount == amount && m.currency == FeeCurrency
  {
    assert !IsWhiteSpace(FeeCurrency[0]);
    var r := Create(amount, FeeCurrency);
    assert ToUpperInvariant(FeeCurrency) == FeeCurrency by {
      var u := ToUpperInvariant(FeeCurrency);
      assert u[0] == 'E' && u[1] == 'U' && u[2] == 'R';
    }
    r.value
  }

  /** The late fee: 1.50 EUR for every whole day late (0.00 EUR under a day). */
  function LateFeeAmount(daysLate: nat): (m: Money)
    ensures m.Valid() && m.currency == FeeCurrency
    ensures m.amount == daysLate as real * LateFeePerDay
  {
    Eur(daysLate as real * LateFeePerDay)
  }

  /** The reason text of a late fee. */
  function LateFeeReason(daysLate: nat): (s: string)
    ensures !IsNullOrWhiteSpace(s)
  {
    var s := "Late return fee: " + NatToString(daysLate) + " days overdue";
    assert !IsWhiteSpace(s[0]);
    s
  }

  /** The reason text of a damage fee: the trimmed description after a fixed prefix. */
  function DamageFeeReason(description: string): (s: string)
    ensures !IsNullOrWhiteSpace(s)
    ensures |s| >= |Trim(description)| && s[|s| - |Trim(description)|..] == Trim(description)
  {
    var s := "Book damage fee: " + Trim(description);
    assert !IsWhiteSpace(s[0]);
    s
  }

  const ReplacementFeeReason: string := "Book replacement fee"

  /** `_fines.Any(f => f.IsPending)`. */
  function AnyPending(fs: seq<Fine>): (b: bool)
    reads fs
    ensures b <==> exists i | 0 <= i < |fs| :: fs[i].status == Pending
  {
    if fs == [] then false
    else if fs[0].status == Pending then true
    else
      var b := AnyPending(fs[1..]);
      assert forall i | 1 <= i < |fs| :: fs[i] == fs[1..][i - 1];
      b
  }

  /** Appending a fine leaves a pending fine pending and adds one exactly
      when the new fine is pending. */
  lemma AnyPendingAppend(fs: seq<Fine>, f: Fine)
    ensures AnyPending(fs + [f]) <==> AnyPending(fs) || f.status == Pending
  {
    assert forall i | 0 <= i < |fs| :: (fs + [f])[i] == fs[i];
    assert (fs + [f])[|fs|] == f;
  }

  /** `_fines.FirstOrDefault(f => f.Id == id)`, as a position: the first fine
      with that id, or none when no fine has it. */
  function FirstWithId(fs: seq<Fine>, id: Guid): (r: Option<nat>)
    ensures r.None? <==> forall i | 0 <= i < |fs| :: fs[i].id != id
    ensures r.Some? ==> r.value < |fs| && fs[r.value].id == id
    ensures r.Some? ==> forall i | 0 <= i < r.value :: fs[i].id != id
  {
    if fs == [] then None
    else if fs[0].id == id then Some(0)
    else
      match FirstWithId(fs[1..], id)
      case None =>
        assert forall i | 1 <= i < |fs| :: fs[i] == fs[1..][i - 1];
        None
      case Some(k) =>
        assert forall i | 1 <= i <= k :: fs[i] == fs[1..][i - 1];
        Some(k + 1)
  }

  /** The total that `ExtendDueDate` compares with the 90-day cap, as the
      source computes it: `currentDuration + additionalDays` in unchecked
      32-bit `int` arithmetic. */
  function ExtendedDurationAsWritten(currentDuration: Int32, additionalDays: Int32): (total: Int32)
    ensures MinInt32 <= currentDuration + additionalDays <= MaxInt32 ==> total == currentDuration + additionalDays
    ensures currentDuration + additionalDays > MaxInt32 ==> total < 0
  {
    Wrap32(currentDuration + additionalDays)
  }

  /** The cap can be bypassed: for every duration a loan can have, an extension
      by `int.MaxValue` days makes the true total exceed 90 days while the
      wrapped total passes the check. */
  lemma ExtensionOverflowPassesCap(currentDuration: Int32)
    requires 0 < currentDuration <= MaxTotalLoanDays
    ensures currentDuration + MaxInt32 > MaxTotalLoanDays
    ensures ExtendedDurationAsWritten(currentDuration, MaxInt32) <= MaxTotalLoanDays
  {
  }

  /** `f` is a fine just issued with these values: pending and unpaid. */
  ghost predicate IsNewFine(f: Fine, id: Guid, fineType: FineType, amount: Money, reason: string, now: Ticks)
    reads f
  {
    && f.id == id && f.fineType == fineType && f.amount == amount && f.reason == reason
    && f.issuedDate == now && f.status == Pending && f.paidDate == None && f.paymentReference == None
  }

  class Loan {
    const bookId: Guid
    const borrowerId: Guid
    const borrowerName: string
    const borrowerEmail: string
    const loanDate: Ticks
    var dueDate: Ticks
    var returnDate: Option<Ticks>
    var status: LoanStatus
    var fines: seq<Fine>

    /** The whole days from the loan date to the due date. */
    function DueSpanDays(): int
      reads this
    {
      DaysBetween(dueDate, loanDate)
    }

    /** The fines are distinct objects, each of them valid. */
    ghost predicate FinesOwned()
      reads this, fines
    {
      && (forall i, j | 0 <= i < j < |fines| :: fines[i] != fines[j])
      && (forall i | 0 <= i < |fines| :: fines[i].Valid())
    }

    /** Everything that holds between operations, except that a Returned loan
        still has a pending fine (the step in between is where `Complete` runs). */
    ghost predicate Sound()
      reads this, fines
    {
      && bookId != EmptyGuid && borrowerId != EmptyGuid
      && !IsNullOrWhiteSpace(borrowerName) && !IsNullOrWhiteSpace(borrowerEmail)
      && dueDate == AddDays(loanDate, DueSpanDays())
      && 0 < DueSpanDays() <= MaxTotalLoanDays
      && (returnDate.Some? <==> status == Returned || status == Completed)
      && (status == Completed ==> !AnyPending(fines))
      && (status == Lost ==> exists i | 0 <= i < |fines| :: fines[i].fineType == LostBookFee)
      && FinesOwned()
    }

    /** The loan invariant. The due date lies a whole number of days, at most
        90, after the loan date; the return date is set exactly for Returned and
        Completed loans; a Completed loan has no pending fine and a Returned one
        has at least one (it completes as soon as none is left); a Lost loan
        carries a replacement fee. */
    ghost predicate Valid()
      reads this, fines
    {
      Sound() && (status == Returned ==> AnyPending(fines))
    }

    /** The loan a successful `Create` returns. */
    constructor Init(bookId: Guid, borrowerId: Guid, borrowerName: string, borrowerEmail: string,
                     loanDurationDays: int, now: Ticks)
      requires bookId != EmptyGuid && borrowerId != EmptyGuid
      requires !IsNullOrWhiteSpace(borrowerName) && !IsNullOrWhiteSpace(borrowerEmail)
      requires 0 < loanDurationDays <= MaxLoanDays
      ensures Valid()
      ensures this.bookId == bookId && this.borrowerId == borrowerId
      ensures this.borrowerName == borrowerName && this.borrowerEmail == borrowerEmail
      ensures loanDate == now && dueDate == AddDays(now, loanDurationDays)
      ensures returnDate == None && status == Active && fines == []
    {
      this.bookId := bookId;
      this.borrowerId := borrowerId;
      this.borrowerName := borrowerName;
      this.borrowerEmail := borrowerEmail;
      loanDate := now;
      dueDate := AddDays(now, loanDurationDays);
      returnDate := None;
      status := Active;
      fines := [];
      new;
      DaysBetweenAddDays(now, loanDurationDays);
    }

    /** `Loan.Create`: checks the ids, name, e-mail and duration (1 to 30 days)
        and opens an Active loan due `loanDurationDays` days from `now`. */
    static method Create(bookId: Guid, borrowerId: Guid, borrowerName: string, borrowerEmail: string,
                         now: Ticks, loanDurationDays: Int32 := DefaultLoanDays)
      returns (r: Result<Loan>)
      ensures r.Err? <==>
                || bookId == EmptyGuid || borrowerId == EmptyGuid
                || IsNullOrWhiteSpace(borrowerName) || IsNullOrWhiteSpace(borrowerEmail)
                || loanDurationDays <= 0 || loanDurationDays > MaxLoanDays
      ensures r.Err? ==> r.error == ArgumentException
      ensures r.Ok? ==> fresh(r.value) && r.value.Valid()
      ensures r.Ok? ==> r.value.bookId == bookId && r.value.borrowerId == borrowerId
      ensures r.Ok? ==> r.value.borrowerName == borrowerName && r.value.borrowerEmail == borrowerEmail
      ensures r.Ok? ==> r.value.loanDate == now && r.value.dueDate == AddDays(now, loanDurationDays)
      ensures r.Ok? ==> r.value.status == Active && r.value.returnDate == None && r.value.fines == []
    {
      if bookId == EmptyGuid {
        return Err(ArgumentException);
      }
      if borrowerId == EmptyGuid {
        return Err(ArgumentException);
      }
      if IsNullOrWhiteSpace(borrowerName) {
        return Err(ArgumentException);
      }
      if IsNullOrWhiteSpace(borrowerEmail) {
        return Err(ArgumentException);
      }
      if loanDurationDays <= 0 {
        return Err(ArgumentException);
      }
      if loanDurationDays > MaxLoanDays {
        return Err(ArgumentException);
      }
      var loan := new Loan.Init(bookId, borrowerId, borrowerName, borrowerEmail, loanDurationDays, now);
      return Ok(loan);
    }

    /** `AddFine`: issues a new pending fine and appends it; `fineId` is its fresh GUID. */
    method AddFine(fineId: Guid, fineType: FineType, amount: Money, reason: string, now: Ticks)
      requires amount.Valid() && !IsNullOrWhiteSpace(reason)
      requires FinesOwned()
      modifies this
      ensures FinesOwned()
      ensures |fines| == |old(fines)| + 1 && fines[..|old(fines)|] == old(fines)
      ensures fresh(fines[|old(fines)|])
      ensures IsNewFine(fines[|old(fines)|], fineId, fineType, amount, reason, now)
      ensures dueDate == old(dueDate) && returnDate == old(returnDate) && status == old(status)
    {
      var created := Fine.Create(fineId, fineType, Some(amount), reason, now);
      var fine := created.value;
      fines := fines + [fine];
    }

    /** `Return`: only an Active loan can be returned. The return date is
        recorded; a return after the due date adds one pending late fee for the
        whole days late. The loan is then Returned, and Completed at once when
        no fine is pending. */
    method Return(now: Ticks, lateFeeId: Guid) returns (r: Outcome)
      requires Valid()
      modifies this
      ensures Valid()
      ensures old(status).MayBecome(status)
      ensures old(status) != Active ==> r == Fail(InvalidOperationException) && unchanged(this)
      ensures old(status) == Active ==> r == Pass && returnDate == Some(now) && dueDate == old(dueDate)
      ensures old(status) == Active && now > old(dueDate) ==>
                && |fines| == |old(fines)| + 1 && fines[..|old(fines)|] == old(fines)
                && fresh(fines[|old(fines)|])
                && IsNewFine(fines[|old(fines)|], lateFeeId, LateFee, LateFeeAmount(DaysBetween(now, old(dueDate))),
                             LateFeeReason(DaysBetween(now, old(dueDate))), now)
                && status == Returned
      ensures old(status) == Active && now <= old(dueDate) ==> fines == old(fines)
      ensures old(status) == Active ==> status == (if AnyPending(fines) then Returned else Completed)
    {
      if status != Active {
        return Fail(InvalidOperationException);
      }
      returnDate := Some(now);
      if now > dueDate {
        var daysLate := DaysBetween(now, dueDate);
        AddFine(lateFeeId, LateFee, LateFeeAmount(daysLate), LateFeeReason(daysLate), now);
        assert fines[|fines| - 1].status == Pending;
      }
      status := Returned;
      r := CompleteWhenSettled();
    }

    /** `ExtendDueDate`: checked in this order: the loan must be Active, the
        extension positive, the loan not overdue, and the whole duration after
        the extension at most 90 days. Only the due date moves. */
    method ExtendDueDate(additionalDays: Int32, now: Ticks) returns (r: Outcome)
      requires Valid()
      modifies this
      ensures Valid()
      ensures status == old(status) && returnDate == old(returnDate) && fines == old(fines)
      ensures old(status) != Active ==> r == Fail(InvalidOperationException)
      ensures old(status) == Active && additionalDays <= 0 ==> r == Fail(ArgumentException)
      ensures old(status) == Active && additionalDays > 0 && now > old(dueDate) ==>
                r == Fail(InvalidOperationException)
      ensures old(status) == Active && additionalDays > 0 && now <= old(dueDate)
              && DaysBetween(old(dueDate), loanDate) + additionalDays > MaxTotalLoanDays ==>
                r == Fail(InvalidOperationException)
      ensures r.Pass? <==>
                && old(status) == Active && additionalDays > 0 && now <= old(dueDate)
                && DaysBetween(old(dueDate), loanDate) + additionalDays <= MaxTotalLoanDays
      ensures r.Fail? ==> unchanged(this)
      ensures r.Pass? ==> dueDate == AddDays(old(dueDate), additionalDays)
      ensures r.Pass? ==> DueSpanDays() == old(DueSpanDays()) + additionalDays <= MaxTotalLoanDays
    {
      if status != Active {
        return Fail(InvalidOperationException);
      }
      if additionalDays <= 0 {
        return Fail(ArgumentException);
      }
      if IsOverdue(now) {
        return Fail(InvalidOperationException);
      }
      var currentDuration := DaysBetween(dueDate, loanDate);
      var newTotalDuration := currentDuration + additionalDays;
      if newTotalDuration > MaxTotalLoanDays {
        return Fail(InvalidOperationException);
      }
      dueDate := AddDays(dueDate, additionalDays);
      DaysBetweenAddDays(loanDate, newTotalDuration);
      return Pass;
    }

    /** `MarkAsLost`: only an Active loan can be lost. It becomes Lost, keeps no
        return date, and gets a pending replacement fee of the given cost, or
        20.00 EUR when none is given. */
    method MarkAsLost(replacementCost: Option<Money>, fineId: Guid, now: Ticks) returns (r: Outcome)
      requires Valid()
      requires replacementCost.Some? ==> replacementCost.value.Valid()
      modifies this
      ensures Valid()
      ensures old(status).MayBecome(status)
      ensures old(status) != Active ==> r == Fail(InvalidOperationException) && unchanged(this)
      ensures old(status) == Active ==>
                && r == Pass && status == Lost && returnDate == None && dueDate == old(dueDate)
                && |fines| == |old(fines)| + 1 && fines[..|old(fines)|] == old(fines)
                && fresh(fines[|old(fines)|])
                && IsNewFine(fines[|old(fines)|], fineId, LostBookFee,
                             if replacementCost.Some? then replacementCost.value else Eur(DefaultReplacementFee),
                             ReplacementFeeReason, now)
    {
      if status != Active {
        return Fail(InvalidOperationException);
      }
      status := Lost;
      var fee := if replacementCost.Some? then replacementCost.value else Eur(DefaultReplacementFee);
      assert !IsWhiteSpace(ReplacementFeeReason[0]);
      AddFine(fineId, LostBookFee, fee, ReplacementFeeReason, now);
      assert fines[|fines| - 1].fineType == LostBookFee;
      assert !AnyPending(old(fines)) ==> !AnyPending(fines[..|fines| - 1]);
      return Pass;
    }

    /** `ReportDamage`: refused for Lost and Completed loans, then for a blank
        description, a missing cost and a cost that is not positive. Appends a
        pending damage fee; the status does not change. */
    method ReportDamage(description: string, damageCost: Option<Money>, fineId: Guid, now: Ticks)
      returns (r: Outcome)
      requires Valid()
      requires damageCost.Some? ==> damageCost.value.Valid()
      modifies this
      ensures Valid()
      ensures status == old(status) && dueDate == old(dueDate) && returnDate == old(returnDate)
      ensures old(status) == Lost || old(status) == Completed ==> r == Fail(InvalidOperationException)
      ensures old(status) != Lost && old(status) != Completed && IsNullOrWhiteSpace(description) ==>
                r == Fail(ArgumentException)
      ensures old(status) != Lost && old(status) != Completed && !IsNullOrWhiteSpace(description) ==>
                (damageCost.None? ==> r == Fail(ArgumentNullException))
      ensures old(status) != Lost && old(status) != Completed && !IsNullOrWhiteSpace(description) ==>
                (damageCost.Some? && damageCost.value.amount <= 0.0 ==> r == Fail(ArgumentException))
      ensures r.Pass? <==>
                && old(status) != Lost && old(status) != Completed && !IsNullOrWhiteSpace(description)
                && damageCost.Some? && damageCost.value.amount > 0.0
      ensures r.Fail? ==> unchanged(this)
      ensures r.Pass? ==>
                && |fines| == |old(fines)| + 1 && fines[..|old(fines)|] == old(fines)
                && fresh(fines[|old(fines)|])
                && IsNewFine(fines[|old(fines)|], fineId, DamageFee, damageCost.value,
                             DamageFeeReason(description), now)
    {
      if status == Lost || status == Completed {
        return Fail(InvalidOperationException);
      }
      if IsNullOrWhiteSpace(description) {
        return Fail(ArgumentException);
      }
      if damageCost.None? {
        return Fail(ArgumentNullException);
      }
      if damageCost.value.amount <= 0.0 {
        return Fail(ArgumentException);
      }
      var before := fines;
      AddFine(fineId, DamageFee, damageCost.value, DamageFeeReason(description), now);
      AnyPendingAppend(before, fines[|before|]);
      return Pass;
    }

    /** `Complete`: a Returned loan with no pending fine becomes Completed;
        anything else is refused. On a valid loan it is always refused, because
        a Returned loan completes by itself the moment its last fine is settled. */
    method Complete() returns (r: Outcome)
      requires Sound()
      modifies this
      ensures Sound()
      ensures old(status) != Returned ==> r == Fail(InvalidOperationException)
      ensures old(status) == Returned && AnyPending(fines) ==> r == Fail(InvalidOperationException)
      ensures r.Pass? <==> old(status) == Returned && !AnyPending(fines)
      ensures r.Fail? ==> unchanged(this)
      ensures r.Pass? ==> status == Completed && fines == old(fines)
      ensures r.Pass? ==> dueDate == old(dueDate) && returnDate == old(returnDate)
      ensures old(Valid()) ==> r.Fail?
    {
      if status != Returned {
        return Fail(InvalidOperationException);
      }
      if HasOutstandingFines() {
        return Fail(InvalidOperationException);
      }
      status := Completed;
      return Pass;
    }

    /** The step that ends `Return`, `PayFine` and `WaiveFine`: `Complete()`
        runs for a Returned loan left with no pending fine, and the result
        stays a success either way. */
    method CompleteWhenSettled() returns (r: Outcome)
      requires Sound()
      modifies this
      ensures Valid()
      ensures r == Pass
      ensures fines == old(fines) && dueDate == old(dueDate) && returnDate == old(returnDate)
      ensures status == (if old(status) == Returned && !AnyPending(fines) then Completed else old(status))
    {
      r := Pass;
      if status == Returned && !HasOutstandingFines() {
        r := Complete();
      }
    }

    /** `PayFine`: an id that matches no fine is refused; otherwise the first
        fine with that id is paid (its own refusals pass through), and a
        Returned loan left with no pending fine becomes Completed. */
    method PayFine(fineId: Guid, reference: string, now: Ticks) returns (r: Outcome)
      requires Valid()
      modifies this, fines
      ensures Valid()
      ensures old(status).MayBecome(status)
      ensures fines == old(fines) && dueDate == old(dueDate) && returnDate == old(returnDate)
      ensures FirstWithId(fines, fineId).None? ==> r == Fail(ArgumentException)
      ensures var k := FirstWithId(fines, fineId);
              r.Pass? <==> k.Some? && old(fines[k.value].status) == Pending && !IsNullOrWhiteSpace(reference)
      ensures r.Fail? ==> unchanged(this) && unchanged(fines)
      ensures var k := FirstWithId(fines, fineId); k.Some? ==>
                && (forall j | 0 <= j < |fines| && j != k.value :: unchanged(fines[j]))
                && (old(fines[k.value].status) != Pending ==> r == Fail(InvalidOperationException))
                && (old(fines[k.value].status) == Pending && IsNullOrWhiteSpace(reference) ==>
                      r == Fail(ArgumentException))
                && (r.Pass? ==>
                      && fines[k.value].status == Paid && fines[k.value].paidDate == Some(now)
                      && fines[k.value].paymentReference == Some(reference)
                      && fines[k.value].reason == old(fines[k.value].reason))
      ensures r.Pass? ==>
                status == (if old(status) == Returned && !AnyPending(fines) then Completed else old(status))
    {
      var k := FirstWithId(fines, fineId);
      if k.None? {
        return Fail(ArgumentException);
      }
      var fine := fines[k.value];
      assert old(AnyPending(fines)) ==> old(status) != Completed;
      r := fine.Pay(reference, now);
      if r.Fail? {
        return;
      }
      r := CompleteWhenSettled();
    }

    /** `WaiveFine`: an id that matches no fine is refused; otherwise the first
        fine with that id is waived (its own refusals pass through), and a
        Returned loan left with no pending fine becomes Completed. */
    method WaiveFine(fineId: Guid, waiveReason: string) returns (r: Outcome)
      requires Valid()
      modifies this, fines
      ensures Valid()
      ensures old(status).MayBecome(status)
      ensures fines == old(fines) && dueDate == old(dueDate) && returnDate == old(returnDate)
      ensures FirstWithId(fines, fineId).None? ==> r == Fail(ArgumentException)
      ensures var k := FirstWithId(fines, fineId);
              r.Pass? <==> k.Some? && old(fines[k.value].status) == Pending && !IsNullOrWhiteSpace(waiveReason)
      ensures r.Fail? ==> unchanged(this) && unchanged(fines)
      ensures var k := FirstWithId(fines, fineId); k.Some? ==>
                && (forall j | 0 <= j < |fines| && j != k.value :: unchanged(fines[j]))
                && (old(fines[k.value].status) != Pending ==> r == Fail(InvalidOperationException))
                && (old(fines[k.value].status) == Pending && IsNullOrWhiteSpace(waiveReason) ==>
                      r == Fail(ArgumentException))
                && (r.Pass? ==>
                      && fines[k.value].status == Waived
                      && fines[k.value].reason == WaivedReason(old(fines[k.value].reason), waiveReason)
                      && fines[k.value].paidDate == None && fines[k.value].paymentReference == None)
      ensures r.Pass? ==>
                status == (if old(status) == Returned && !AnyPending(fines) then Completed else old(status))
    {
      var k := FirstWithId(fines, fineId);
      if k.None? {
        return Fail(ArgumentException);
      }
      var fine := fines[k.value];
      assert old(AnyPending(fines)) ==> old(status) != Completed;
      r := fine.Waive(waiveReason);
      if r.Fail? {
        return;
      }
      r := CompleteWhenSettled();
    }

    /** `IsActive()`. */
    predicate IsActive()
      reads this
    {
      status == Active
    }

    /** `IsReturned()`: true for a Returned and for a Completed loan. */
    predicate IsReturned()
      reads this
    {
      status == Returned || status == Completed
    }

    /** `IsCompleted()`. */
    predicate IsCompleted()
      reads this
    {
      status == Completed
    }

    /** `IsOverdue()`: still Active and past the due date. */
    predicate IsOverdue(now: Ticks)
      reads this
    {
      status == Active && now > dueDate
    }

    /** `GetDaysOverdue()`: the whole days past the due date of an overdue
        loan; zero for a loan that is not overdue. */
    function GetDaysOverdue(now: Ticks): (d: int)
      reads this
      ensures d >= 0
      ensures !IsOverdue(now) ==> d == 0
      ensures IsOverdue(now) ==> d * TicksPerDay <= now - dueDate < (d + 1) * TicksPerDay
    {
      if IsOverdue(now) then DaysBetween(now, dueDate) else 0
    }

    /** `GetLoanDuration()`: whole days from the loan date to the return date,
        or to `now` while the book is out. */
    function GetLoanDuration(now: Ticks): (d: int)
      reads this
      ensures var end := if returnDate.Some? then returnDate.value else now;
              end >= loanDate ==> d >= 0 && d * TicksPerDay <= end - loanDate < (d + 1) * TicksPerDay
    {
      DaysBetween(if returnDate.Some? then returnDate.value else now, loanDate)
    }

    /** `HasOutstandingFines()`: some fine is still pending. */
    predicate HasOutstandingFines()
      reads this, fines
    {
      AnyPending(fines)
    }
  }
}
