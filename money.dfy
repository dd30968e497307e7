/** `Money`: an immutable, currency-tagged, non-negative decimal amount.
    `decimal` is exact, so amounts are modelled as `real`. */
module ValueObjects {
  import opened Common
  import opened Text

  /** The constructor is private in the source: every `Money` that exists was
      built by `Create`, `Add`, `Subtract` or `MultiplyBy`, and `Valid()` is
      what those guarantee. */
  datatype Money = Money(amount: real, currency: string) {

    /** A non-negative amount and a non-blank, upper-case currency whose `Length`
        (in UTF-16 code units) is three. */
    predicate Valid() {
      && amount >= 0.0
      && Utf16Length(currency) == 3
      && !IsNullOrWhiteSpace(currency)
      && ToUpperInvariant(currency) == currency
    }

    /** `Add`: the sum, in the same currency; different currencies are refused. */
    function Add(other: Money): (r: Result<Money>)
      ensures r.Err? <==> currency != other.currency
      ensures r.Err? ==> r.error == InvalidOperationException
      ensures r.Ok? ==> r.value.currency == currency && r.value.amount == amount + other.amount
      ensures Valid() && other.Valid() && r.Ok? ==> r.value.Valid()
    {
      if currency != other.currency then Err(InvalidOperationException)
      else Ok(Money(amount + other.amount, currency))
    }

    /** `Subtract`: the difference, in the same currency; different currencies
        and a result below zero are refused. */
    function Subtract(other: Money): (r: Result<Money>)
      ensures r.Err? <==> currency != other.currency || amount < other.amount
      ensures r.Err? ==> r.error == InvalidOperationException
      ensures r.Ok? ==> r.value.currency == currency && r.value.amount + other.amount == amount
      ensures r.Ok? ==> r.value.amount >= 0.0
      ensures Valid() && r.Ok? ==> r.value.Valid()
    {
      if currency != other.currency then Err(InvalidOperationException)
      else if amount < other.amount then Err(InvalidOperationException)
      else Ok(Money(amount - other.amount, currency))
    }

    /** `MultiplyBy`: the amount scaled by a non-negative factor, in the same currency. */
    function MultiplyBy(multiplier: real): (r: Result<Money>)
      ensures r.Err? <==> multiplier < 0.0
      ensures r.Err? ==> r.error == ArgumentException
      ensures r.Ok? ==> r.value.currency == currency && r.value.amount == amount * multiplier
      ensures Valid() && r.Ok? ==> r.value.Valid()
    {
      if multiplier < 0.0 then Err(ArgumentException)
      else Ok(Money(amount * multiplier, currency))
    }

    /** `Equals(Money?)`: structural equality, false for null. */
    function Equals(other: Option<Money>): (r: bool)
      ensures r <==> other == Some(this)
    {
      other.Some? && amount == other.value.amount && currency == other.value.currency
    }
  }

  /** `Money.Create`: refuses a negative amount, a blank currency and a currency
      whose `Length` is not three; otherwise keeps the amount and
      upper-cases the currency. */
  function Create(amount: real, currency: string): (r: Result<Money>)
    ensures r.Err? <==> amount < 0.0 || IsNullOrWhiteSpace(currency) || Utf16Length(currency) != 3
    ensures r.Err? ==> r.error == ArgumentException
    ensures r.Ok? ==> r.value.amount == amount && r.value.currency == ToUpperInvariant(currency)
    ensures r.Ok? ==> r.value.Valid()
  {
    if amount < 0.0 then Err(ArgumentException)
    else if IsNullOrWhiteSpace(currency) then Err(ArgumentException)
    else if Utf16Length(currency) != 3 then Err(ArgumentException)
    else
      ToUpperIdempotent(currency);
      ToUpperKeepsBlankness(currency);
      ToUpperKeepsUtf16Length(currency);
      Ok(Money(amount, ToUpperInvariant(currency)))
  }

  /** `operator ==` (and, negated, `operator !=`): `object.Equals(left, right)`,
      so two nulls are equal, a null never equals a value, and otherwise `Equals` decides. */
  function OpEquals(left: Option<Money>, right: Option<Money>): (r: bool)
    ensures r <==> left == right
    ensures left.Some? ==> r == left.value.Equals(right)
  {
    if left == right then true
    else if left.None? || right.None? then false
    else left.value.Equals(right)
  }

  /** Re-creating a valid `Money` from its own parts gives it back unchanged. */
  lemma CreateRoundTrip(m: Money)
    requires m.Valid()
    ensures Create(m.amount, m.currency) == Ok(m)
  {
  }

  /** The currency length is `string.Length`, in UTF-16 code units: a
      character outside the Basic Multilingual Plane counts twice, so one such
      character and one letter make an accepted currency, and three of them
      do not. */
  lemma CreateCountsUtf16Units()
    ensures Create(1.0, "\U{1F600}a").Ok?
    ensures Create(1.0, "\U{1F600}\U{1F600}\U{1F600}").Err?
  {
    assert !IsWhiteSpace("\U{1F600}a"[0]);
    assert !IsWhiteSpace("\U{1F600}\U{1F600}\U{1F600}"[0]);
  }

  /** Every `Money` that `Create` returns is one that `Create` reproduces. */
  lemma CreateIdempotent(amount: real, currency: string)
    requires Create(amount, currency).Ok?
    ensures Create(amount, Create(amount, currency).value.currency) == Create(amount, currency)
  {
    CreateRoundTrip(Create(amount, currency).value);
  }

  /** Addition is commutative, and it fails for both orders or for neither. */
  lemma AddCommutative(a: Money, b: Money)
    ensures a.Add(b).Ok? <==> b.Add(a).Ok?
    ensures a.Add(b).Ok? ==> a.Add(b) == b.Add(a)
  {
  }

  /** Taking `b` away and adding it back gives back `a`. */
  lemma SubtractThenAdd(a: Money, b: Money)
    requires a.Subtract(b).Ok?
    ensures a.Subtract(b).value.Add(b) == Ok(a)
  {
  }

  /** Multiplying by one is the identity. */
  lemma MultiplyByOne(m: Money)
    ensures m.MultiplyBy(1.0) == Ok(m)
  {
  }

  /** Structural equality is an equivalence that never holds against null. */
  lemma EqualsIsEquivalence(a: Money, b: Money, c: Money)
    ensures a.Equals(Some(a))
    ensures a.Equals(Some(b)) ==> b.Equals(Some(a))
    ensures a.Equals(Some(b)) && b.Equals(Some(c)) ==> a.Equals(Some(c))
    ensures !a.Equals(None)
  {
  }

  /** `operator !=` is the negation of `operator ==`. */
  function OpNotEquals(left: Option<Money>, right: Option<Money>): (r: bool)
    ensures r <==> left != right
  {
    !OpEquals(left, right)
  }
}
