/** `calculate_total_revenue`: a left fold adding `int(Quantity) * float(UnitPrice)` over the
    records, then `round(total, 2)`. Arithmetic is exact (`real`); IEEE double rounding of the
    running total is not modelled. */
module Revenue {
  import opened Wrappers
  import opened Text
  import opened Literals
  import opened Parser

  /** `q * p` for an integer `q`, as `q` repeated additions (or subtractions) of `p`. The
      recursion keeps the product out of the arithmetic the solver sees when it only needs to
      move amounts around; `TimesIsProduct` connects it to multiplication. */
  function Times(q: int, p: real): real
    decreases if q < 0 then -q else q
  {
    if q == 0 then 0.0
    else if q > 0 then Times(q - 1, p) + p
    else Times(q + 1, p) - p
  }

  lemma {:induction false} TimesIsProduct(q: int, p: real)
    ensures Times(q, p) == q as real * p
    decreases if q < 0 then -q else q
  {
    if q > 0 {
      TimesIsProduct(q - 1, p);
    } else if q < 0 {
      TimesIsProduct(q + 1, p);
    }
  }

  /** `int(t.get("Quantity")) * float(t.get("UnitPrice"))`; `None` where either call raises
      (Quantity is converted first, but both failures end the same way). */
  function Amount(t: Transaction): Option<real>
  {
    match ParseInt(t.quantity)
    case None => None
    case Some(q) =>
      match ParseFloat(t.unitPrice)
      case None => None
      case Some(p) => Some(Times(q, p))
  }

  /** A record's amount is its integer quantity times its decimal price. */
  lemma AmountIsProduct(t: Transaction, q: int, p: real)
    requires ParseInt(t.quantity) == Some(q) && ParseFloat(t.unitPrice) == Some(p)
    ensures Amount(t).Some? && Amount(t).value == q as real * p
  {
    TimesIsProduct(q, p);
  }

  /** A record's amount is defined exactly when both its Quantity and UnitPrice coerce. */
  lemma AmountDefined(t: Transaction)
    ensures Amount(t).Some? <==> ParseInt(t.quantity).Some? && ParseFloat(t.unitPrice).Some?
  {
  }

  /** Sum of two amounts; `None` if either is. */
  function Add(a: Option<real>, b: Option<real>): Option<real>
  {
    if a.Some? && b.Some? then Some(a.value + b.value) else None
  }

  /** The exact running total of the loop at lines 16-19: the sum over the records of
      `int(Quantity) * float(UnitPrice)`, accumulated left to right; `None` if any record's
      coercion raises. */
  function RevenueSum(ts: seq<Transaction>): Option<real>
  {
    if |ts| == 0 then Some(0.0) else Add(RevenueSum(ts[..|ts| - 1]), Amount(ts[|ts| - 1]))
  }

  /** Appending one record adds exactly its `qty * price` to the total (or makes the call
      raise, if that record's coercion raises). */
  lemma RevenueSumAppend(ts: seq<Transaction>, t: Transaction)
    ensures RevenueSum(ts + [t]) == Add(RevenueSum(ts), Amount(t))
  {
    assert (ts + [t])[..|ts|] == ts;
  }

  /** Splitting the records anywhere splits the total: the revenue of `a + b` is the revenue
      of `a` plus the revenue of `b`, and it is defined iff both are. */
  lemma {:induction false} RevenueSumConcat(a: seq<Transaction>, b: seq<Transaction>)
    ensures RevenueSum(a + b) == Add(RevenueSum(a), RevenueSum(b))
    decreases |b|
  {
    if |b| == 0 {
      assert a + b == a;
    } else {
      var b', t := b[..|b| - 1], b[|b| - 1];
      assert a + b == (a + b') + [t];
      assert b == b' + [t];
      RevenueSumConcat(a, b');
      RevenueSumAppend(a + b', t);
      RevenueSumAppend(b', t);
      AddAssoc(RevenueSum(a), RevenueSum(b'), Amount(t));
    }
  }

  lemma AddAssoc(x: Option<real>, y: Option<real>, z: Option<real>)
    ensures Add(Add(x, y), z) == Add(x, Add(y, z))
  {
  }

  /** Putting a record in front adds its amount the same way. */
  lemma RevenueSumCons(t: Transaction, ts: seq<Transaction>)
    ensures RevenueSum([t] + ts) == Add(Amount(t), RevenueSum(ts))
  {
    RevenueSumConcat([t], ts);
    RevenueSumAppend([], t);
    assert [] + [t] == [t];
  }

  /** Every record's Quantity and UnitPrice coerce. */
  predicate AllPriced(ts: seq<Transaction>)
  {
    forall i :: 0 <= i < |ts| ==> Amount(ts[i]).Some?
  }

  /** A sequence is priced exactly when all but its last record are and the last one is. */
  lemma AllPricedSnoc(ts: seq<Transaction>)
    requires |ts| > 0
    ensures AllPriced(ts) <==> AllPriced(ts[..|ts| - 1]) && Amount(ts[|ts| - 1]).Some?
  {
    var init := ts[..|ts| - 1];
    assert forall i :: 0 <= i < |init| ==> init[i] == ts[i];
  }

  /** The sum is defined exactly when every record's Quantity and UnitPrice coerce; it is 0
      for no records. */
  lemma {:induction false} RevenueSumDefined(ts: seq<Transaction>)
    ensures RevenueSum(ts).Some? <==> AllPriced(ts)
    ensures |ts| == 0 ==> RevenueSum(ts) == Some(0.0)
  {
    if |ts| > 0 {
      RevenueSumDefined(ts[..|ts| - 1]);
      AllPricedSnoc(ts);
    }
  }

  /** Python's `round` to an integer on an exact value: nearest integer, ties to even. */
  function RoundHalfEven(y: real): (n: int)
    ensures -0.5 <= n as real - y <= 0.5
  {
    var f := y.Floor;
    var d := y - f as real;
    if d < 0.5 then f
    else if d > 0.5 then f + 1
    else if f % 2 == 0 then f
    else f + 1
  }

  /** `round(x, 2)` on an exact value: the nearest multiple of 0.01, ties to an even number of
      hundredths. */
  function Round2(x: real): (r: real)
    ensures (r * 100.0).Floor as real == r * 100.0
    ensures x - 0.005 <= r <= x + 0.005
  {
    RoundHalfEven(x * 100.0) as real / 100.0
  }

  /** A whole number of cents is left unchanged by rounding. */
  lemma Round2Cents(n: int)
    ensures Round2(n as real / 100.0) == n as real / 100.0
  {
    assert (n as real / 100.0) * 100.0 == n as real;
  }

  /** A value exactly halfway between `n` and `n + 1` hundredths rounds to whichever of the
      two is even. */
  lemma Round2TieEven(n: int)
    ensures Round2((2 * n + 1) as real / 200.0) == (if n % 2 == 0 then n else n + 1) as real / 100.0
  {
    var x := (2 * n + 1) as real / 200.0;
    assert x * 100.0 == n as real + 0.5;
    assert (n as real + 0.5).Floor == n;
  }

  /** Two instances of the tie rule: 0.125 rounds down to 0.12, 0.375 up to 0.38. */
  lemma Round2Ties()
    ensures Round2(0.125) == 0.12 && Round2(0.375) == 0.38
  {
    assert 0.125 * 100.0 == 12.5;
    assert 0.375 * 100.0 == 37.5;
  }

  /** `calculate_total_revenue(transactions)`: the exact sum rounded to cents, `None` where the
      call raises. */
  function CalculateTotalRevenue(ts: seq<Transaction>): (r: Option<real>)
    ensures r.Some? <==> RevenueSum(ts).Some?
    ensures r.Some? ==> RevenueSum(ts).value - 0.005 <= r.value <= RevenueSum(ts).value + 0.005
  {
    match RevenueSum(ts)
    case None => None
    case Some(s) => Some(Round2(s))
  }

  /** The result is a whole number of cents. */
  lemma CalculateTotalRevenueCents(ts: seq<Transaction>)
    requires RevenueSum(ts).Some?
    ensures CalculateTotalRevenue(ts).Some?
    ensures (CalculateTotalRevenue(ts).value * 100.0).Floor as real == CalculateTotalRevenue(ts).value * 100.0
  {
  }

  /** No records give a revenue of 0. */
  lemma CalculateTotalRevenueEmpty()
    ensures CalculateTotalRevenue([]) == Some(0.0)
  {
  }

  /** The loop of `calculate_total_revenue`, accumulating left to right and returning as soon
      as one record's `int(...) * float(...)` raises. */
  method CalculateTotalRevenueLoop(ts: seq<Transaction>) returns (r: Option<real>)
    ensures r == CalculateTotalRevenue(ts)
  {
    var total := 0.0;
    var i := 0;
    while i < |ts|
      invariant 0 <= i <= |ts|
      invariant RevenueSum(ts[..i]) == Some(total)
    {
      var amount := Amount(ts[i]);
      if amount.None? {
        FailingRecordFails(ts, i);
        return None;
      }
      total := RevenueStep(ts, i, total);
      i := i + 1;
    }
    assert ts[..i] == ts;
    r := Some(Round2(total));
    RevenueOfSum(ts, total);
  }

  /** A defined exact sum is rounded to give the result. */
  lemma RevenueOfSum(ts: seq<Transaction>, total: real)
    requires RevenueSum(ts) == Some(total)
    ensures CalculateTotalRevenue(ts) == Some(Round2(total))
  {
  }

  /** One pass of the loop body for a record whose amount is defined: the running total grows
      by that amount. */
  method RevenueStep(ts: seq<Transaction>, i: nat, total: real) returns (next: real)
    requires i < |ts| && RevenueSum(ts[..i]) == Some(total) && Amount(ts[i]).Some?
    ensures RevenueSum(ts[..i + 1]) == Some(next)
  {
    next := total + Amount(ts[i]).value;
    RevenueSumPrefix(ts, i);
  }

  /** One more record of the prefix adds its amount. */
  lemma RevenueSumPrefix(ts: seq<Transaction>, i: nat)
    requires i < |ts|
    ensures RevenueSum(ts[..i + 1]) == Add(RevenueSum(ts[..i]), Amount(ts[i]))
  {
    assert ts[..i + 1][..i] == ts[..i];
  }

  /** What the loop body's `int(...) * float(...)` means for one record: it is defined exactly
      when the stripped Quantity is an integer literal and the stripped UnitPrice a decimal
      literal, and it is then the product of the values they denote. */
  lemma AmountOfLiterals(t: Transaction)
    ensures Amount(t).Some? <==> IsIntLiteral(Strip(t.quantity)) && IsFloatLiteral(Strip(t.unitPrice))
    ensures Amount(t).Some? ==>
      Amount(t).value == IntLiteralValue(Strip(t.quantity)) as real * FloatLiteralValue(Strip(t.unitPrice))
  {
    ParseIntValue(t.quantity);
    ParseFloatValue(t.unitPrice);
    if Amount(t).Some? {
      AmountIsProduct(t, ParseInt(t.quantity).value, ParseFloat(t.unitPrice).value);
    }
  }

  /** A record whose Quantity or UnitPrice does not coerce makes the whole call raise. */
  lemma FailingRecordFails(ts: seq<Transaction>, i: nat)
    requires i < |ts| && Amount(ts[i]).None?
    ensures CalculateTotalRevenue(ts).None?
  {
    RevenueSumDefined(ts);
  }

  /** A record whose Quantity text is not an integer literal makes the whole call raise; the
      record is not skipped. */
  lemma NonIntegerQuantityFails(ts: seq<Transaction>, i: nat)
    requires i < |ts| && ParseInt(ts[i].quantity).None?
    ensures CalculateTotalRevenue(ts).None?
  {
    assert Amount(ts[i]).None?;
    FailingRecordFails(ts, i);
  }
}
