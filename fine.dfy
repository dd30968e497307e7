/** `Fine`: an amount owed against a loan, with a one-way lifecycle
    Pending -> Paid or Pending -> Waived. Fines are created and resolved only
    through the loan that owns them. */
module Fines {
  import opened Common
  import opened Text
  import opened ValueObjects

  datatype FineType = LateFee | DamageFee | LostBookFee

  datatype FineStatus = Pending | Paid | Waived {
    /** The status changes allowed over a fine's life: staying put, or leaving Pending. */
    predicate MayBecome(next: FineStatus) {
      this == next || this == Pending
    }
  }

  /** The reason a waived fine carries: the old reason with the waiver appended. */
  function WaivedReason(reason: string, waiveReason: string): (r: string)
    ensures |r| > |reason| && r[..|reason|] == reason
    ensures !IsNullOrWhiteSpace(waiveReason) ==> !IsNullOrWhiteSpace(r)
  {
    var r := reason + " - WAIVED: " + waiveReason;
    NotBlankConcat(reason + " - WAIVED: ", waiveReason, "");
    assert r == reason + " - WAIVED: " + waiveReason + "";
    r
  }

  class Fine {
    const id: Guid
    const fineType: FineType
    const amount: Money
    var reason: string
    const issuedDate: Ticks
    var paidDate: Option<Ticks>
    var status: FineStatus
    var paymentReference: Option<string>

    /** A non-blank reason and a valid amount; a payment date and reference
        exist exactly when the fine is paid, and the reference is not blank. */
    ghost predicate Valid()
      reads this
    {
      && amount.Valid()
      && !IsNullOrWhiteSpace(reason)
      && (paidDate.Some? <==> status == Paid)
      && (paymentReference.Some? <==> status == Paid)
      && (paymentReference.Some? ==> !IsNullOrWhiteSpace(paymentReference.value))
    }

    /** The object a successful `Create` returns: pending, unpaid. */
    constructor Init(id: Guid, fineType: FineType, amount: Money, reason: string, now: Ticks)
      requires amount.Valid() && !IsNullOrWhiteSpace(reason)
      ensures Valid()
      ensures this.id == id && this.fineType == fineType && this.amount == amount
      ensures this.reason == reason && issuedDate == now
      ensures status == Pending && paidDate == None && paymentReference == None
    {
      this.id := id;
      this.fineType := fineType;
      this.amount := amount;
      this.reason := reason;
      issuedDate := now;
      status := Pending;
      paidDate := None;
      paymentReference := None;
    }

    /** The internal constructor `Fine(type, amount, reason)`: a null amount or a
        blank reason is refused; `id` is the fresh GUID and `now` the clock. */
    static method Create(id: Guid, fineType: FineType, amount: Option<Money>, reason: string, now: Ticks)
      returns (r: Result<Fine>)
      requires amount.Some? ==> amount.value.Valid()
      ensures amount.None? ==> r == Err(ArgumentNullException)
      ensures amount.Some? && IsNullOrWhiteSpace(reason) ==> r == Err(ArgumentException)
      ensures r.Ok? <==> amount.Some? && !IsNullOrWhiteSpace(reason)
      ensures r.Ok? ==> fresh(r.value) && r.value.Valid()
      ensures r.Ok? ==> r.value.id == id && r.value.fineType == fineType && r.value.amount == amount.value
      ensures r.Ok? ==> r.value.reason == reason && r.value.issuedDate == now
      ensures r.Ok? ==> r.value.status == Pending && r.value.paidDate == None && r.value.paymentReference == None
    {
      if amount.None? {
        return Err(ArgumentNullException);
      }
      if IsNullOrWhiteSpace(reason) {
        return Err(ArgumentException);
      }
      var f := new Fine.Init(id, fineType, amount.value, reason, now);
      return Ok(f);
    }

    /** `Pay`: refused once paid or waived, then refused for a blank reference;
        otherwise records the payment. Type, amount and reason are kept. */
    method Pay(reference: string, now: Ticks) returns (r: Outcome)
      requires Valid()
      modifies this
      ensures Valid()
      ensures old(status).MayBecome(status)
      ensures old(status) != Pending ==> r == Fail(InvalidOperationException)
      ensures old(status) == Pending && IsNullOrWhiteSpace(reference) ==> r == Fail(ArgumentException)
      ensures r.Pass? <==> old(status) == Pending && !IsNullOrWhiteSpace(reference)
      ensures r.Fail? ==> unchanged(this)
      ensures r.Pass? ==> status == Paid
      ensures r.Pass? ==> paidDate == Some(now) && paymentReference == Some(reference) && reason == old(reason)
    {
      if status == Paid {
        return Fail(InvalidOperationException);
      }
      if status == Waived {
        return Fail(InvalidOperationException);
      }
      if IsNullOrWhiteSpace(reference) {
        return Fail(ArgumentException);
      }
      paidDate := Some(now);
      paymentReference := Some(reference);
      status := Paid;
      return Pass;
    }

    /** `Waive`: refused once paid or waived, then refused for a blank reason;
        otherwise appends the waiver to the reason. No payment is recorded. */
    method Waive(waiveReason: string) returns (r: Outcome)
      requires Valid()
      modifies this
      ensures Valid()
      ensures old(status).MayBecome(status)
      ensures old(status) != Pending ==> r == Fail(InvalidOperationException)
      ensures old(status) == Pending && IsNullOrWhiteSpace(waiveReason) ==> r == Fail(ArgumentException)
      ensures r.Pass? <==> old(status) == Pending && !IsNullOrWhiteSpace(waiveReason)
      ensures r.Fail? ==> unchanged(this)
      ensures r.Pass? ==> status == Waived
      ensures r.Pass? ==> reason == WaivedReason(old(reason), waiveReason)
      ensures r.Pass? ==> paidDate == None && paymentReference == None
    {
      if status == Paid {
        return Fail(InvalidOperationException);
      }
      if status == Waived {
        return Fail(InvalidOperationException);
      }
      if IsNullOrWhiteSpace(waiveReason) {
        return Fail(ArgumentException);
      }
      reason := WaivedReason(reason, waiveReason);
      status := Waived;
      return Pass;
    }

    /** `IsPaid`. */
    predicate IsPaid()
      reads this
    {
      status == Paid
    }

    /** `IsPending`. */
    predicate IsPending()
      reads this
    {
      status == Pending
    }

    /** `GetDaysOverdue()`: whole days since issue while pending, zero once resolved. */
    function GetDaysOverdue(now: Ticks): (d: int)
      reads this
      ensures status != Pending ==> d == 0
      ensures status == Pending && now >= issuedDate ==>
                d >= 0 && d * TicksPerDay <= now - issuedDate < (d + 1) * TicksPerDay
    {
      if status == Pending then DaysBetween(now, issuedDate) else 0
    }
  }
}
