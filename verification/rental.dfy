/** The Rental entity and its status enumeration (Models/Rental.cs). */
module Rentals {
  import opened Wrappers
  import opened Time
  import opened Text

  datatype RentalStatus = ACTIVE | COMPLETED | CANCELLED

  /**
   * A booking. It names one customer (an identity-store id) and one vehicle;
   * nothing in the type orders `startTime` before `endTime`, and the payment
   * link is optional.
   */
  datatype Rental = Rental(
    id: int,
    customerId: string,
    vehicleId: int,
    startTime: DateTime,
    endTime: DateTime,
    totalCost: real,
    status: RentalStatus,
    paymentId: Option<int>)

  /**
   * The lifecycle: a rental is created ACTIVE and may move once, to
   * COMPLETED or CANCELLED; nothing leads out of either.
   */
  predicate StatusTransitionAllowed(from: RentalStatus, to: RentalStatus)
  {
    from == to || from == ACTIVE
  }

  /** The terminal statuses admit no move but staying put. */
  lemma TerminalStatusesAreFinal(from: RentalStatus, to: RentalStatus)
    requires from != ACTIVE && StatusTransitionAllowed(from, to)
    ensures to == from
  {
  }

  /** Enum.ToString: the member's name. */
  function StatusName(s: RentalStatus): (name: string)
    ensures name != []
  {
    match s
    case ACTIVE => "ACTIVE"
    case COMPLETED => "COMPLETED"
    case CANCELLED => "CANCELLED"
  }

  /** What Enum.TryParse produces: a declared member, or a number that names none. */
  datatype ParsedStatus = Defined(status: RentalStatus) | Undefined(value: int)

  /** The member whose underlying value is `v`: declaration order, from 0. */
  function StatusOfValue(v: int): ParsedStatus
  {
    if v == 0 then Defined(ACTIVE)
    else if v == 1 then Defined(COMPLETED)
    else if v == 2 then Defined(CANCELLED)
    else Undefined(v)
  }

  /** The largest value of the enumeration's underlying type, Int32. */
  const Int32Max: int := 0x7FFF_FFFF

  predicate AllDigits(text: string)
  {
    forall i :: 0 <= i < |text| ==> IsDigit(text[i])
  }

  /**
   * Enum.TryParse<RentalStatus>: the exact (case-sensitive) name of a member,
   * or a string of decimal digits read as an underlying Int32 value; a
   * number too large for Int32, and anything else, fails.
   */
  function TryParseRentalStatus(text: string): (r: Option<ParsedStatus>)
    ensures r.Some? && r.value.Defined? ==> text == StatusName(r.value.status) || AllDigits(text)
    ensures r.Some? && r.value.Undefined? ==> AllDigits(text) && 3 <= r.value.value <= Int32Max
    ensures text == [] ==> r.None?
    ensures text != [] && AllDigits(text) ==> (r.None? <==> DigitsValue(text) > Int32Max)
  {
    if text == "ACTIVE" then Some(Defined(ACTIVE))
    else if text == "COMPLETED" then Some(Defined(COMPLETED))
    else if text == "CANCELLED" then Some(Defined(CANCELLED))
    else if text != [] && AllDigits(text) && DigitsValue(text) <= Int32Max then
      Some(StatusOfValue(DigitsValue(text)))
    else None
  }

  function Pow10(n: nat): (p: nat)
    ensures p >= 1
  {
    if n == 0 then 1 else 10 * Pow10(n - 1)
  }

  /** A digit string without a leading zero is worth at least 10 to the power of its length less one. */
  lemma {:induction false} DigitsValueAtLeast(text: string)
    requires text != [] && AllDigits(text) && text[0] != '0'
    ensures DigitsValue(text) >= Pow10(|text| - 1)
  {
    if |text| > 1 {
      var prefix := text[..|text| - 1];
      assert prefix[0] == text[0];
      DigitsValueAtLeast(prefix);
    }
  }

  /** Eleven digits or more, without a leading zero, overflow Int32: such a status does not parse. */
  lemma TryParseRejectsOverflow(text: string)
    requires AllDigits(text) && |text| >= 11 && text[0] != '0'
    ensures TryParseRentalStatus(text).None?
  {
    DigitsValueAtLeast(text);
    var n := |text| - 1;
    assert Pow10(10) == 10_000_000_000 by {
      assert Pow10(1) == 10 && Pow10(2) == 100 && Pow10(3) == 1000 && Pow10(4) == 10_000;
      assert Pow10(5) == 100_000 && Pow10(6) == 1_000_000 && Pow10(7) == 10_000_000;
      assert Pow10(8) == 100_000_000 && Pow10(9) == 1_000_000_000;
    }
    Pow10Monotone(10, n);
  }

  lemma {:induction false} Pow10Monotone(m: nat, n: nat)
    requires m <= n
    ensures Pow10(m) <= Pow10(n)
  {
    if m < n {
      Pow10Monotone(m, n - 1);
    }
  }

  /** Parsing the name ToString produces gives the member back. */
  lemma TryParseStatusNameRoundTrip(s: RentalStatus)
    ensures TryParseRentalStatus(StatusName(s)) == Some(Defined(s))
  {
  }

  /** Distinct members have distinct names. */
  lemma StatusNameInjective(s: RentalStatus, t: RentalStatus)
    requires StatusName(s) == StatusName(t)
    ensures s == t
  {
  }

  /** Names are case-sensitive: the lower-case spelling is not a member. */
  lemma TryParseIsCaseSensitive()
    ensures TryParseRentalStatus("active").None?
  {
  }
}
