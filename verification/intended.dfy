/** The parser and revenue fold as their documentation describes them, used to state the
    findings: commas are removed from the numeric fields rather than turned into spaces, a
    line with the wrong number of fields is skipped rather than aborting the call, and the
    emitted record carries the converted `int` Quantity and `float` UnitPrice and the cleaned
    ProductName. */
module Intended {
  import opened Wrappers
  import opened Text
  import opened Literals
  import opened Parser
  import opened Revenue
  import Seqs

  /** `f.replace(",", "").strip()`: thousands separators removed. */
  function CleanNumber(f: string): string
  {
    Strip(Remove(f, ','))
  }

  lemma {:induction false} RemoveConcat(a: string, b: string, c: char)
    ensures Remove(a + b, c) == Remove(a, c) + Remove(b, c)
    decreases |a|
  {
    if |a| == 0 {
      assert a + b == b;
    } else {
      assert (a + b)[0] == a[0];
      assert (a + b)[1..] == a[1..] + b;
      RemoveConcat(a[1..], b, c);
    }
  }

  /** Removing the separator from digit groups leaves the plain digits. */
  lemma CleanThousands(a: string, b: string)
    requires |a| > 0 && |b| > 0 && AllDigits(a) && AllDigits(b)
    ensures AllDigits(a + b)
    ensures CleanNumber(a + "," + b) == a + b
  {
    DigitsConcat(a, b);
    RemoveSeparator(a, b);
    var s := a + b;
    assert s[0] == a[0] && s[|s| - 1] == b[|b| - 1];
    StripTrimmed(s);
  }

  lemma DigitsConcat(a: string, b: string)
    requires AllDigits(a) && AllDigits(b)
    ensures AllDigits(a + b)
  {
    var s := a + b;
    forall i | 0 <= i < |s|
      ensures IsDigit(s[i])
    {
      if i < |a| {
        assert s[i] == a[i];
      } else {
        assert s[i] == b[i - |a|];
      }
    }
  }

  lemma RemoveSeparator(a: string, b: string)
    requires AllDigits(a) && AllDigits(b)
    ensures Remove(a + "," + b, ',') == a + b
  {
    assert a + "," + b == a + ("," + b);
    assert Remove("," + b, ',') == b by {
      RemoveConcat(",", b, ',');
      ReplaceAbsentDigits(b);
      assert Remove(",", ',') == [];
    }
    assert Remove(a, ',') == a by {
      ReplaceAbsentDigits(a);
    }
    RemoveConcat(a, "," + b, ',');
  }

  /** A string of digits holds no comma. */
  lemma ReplaceAbsentDigits(s: string)
    requires AllDigits(s)
    ensures ',' !in s && Remove(s, ',') == s
  {
  }

  /** Plain digits read as their value under both `int()` and `float()`. */
  lemma DigitsCoerce(s: string)
    requires |s| > 0 && AllDigits(s)
    ensures ParseInt(s) == Some(DigitsValue(s) as int)
    ensures ParseFloat(s) == Some(DigitsValue(s) as real)
  {
    assert !IsSpace(s[0]) && !IsSpace(s[|s| - 1]);
    StripTrimmed(s);
    assert Unsigned(s) == s;
    IntLiteralIsFloatLiteral(s);
  }

  /** Digits with one thousands separator between them read as the digits without it, for
      both `int()` and `float()`. */
  lemma ThousandsSeparatorAccepted(a: string, b: string)
    requires |a| > 0 && |b| > 0 && AllDigits(a) && AllDigits(b)
    ensures AllDigits(a + b)
    ensures ParseInt(CleanNumber(a + "," + b)) == Some(DigitsValue(a + b) as int)
    ensures ParseFloat(CleanNumber(a + "," + b)) == Some(DigitsValue(a + b) as real)
  {
    CleanThousands(a, b);
    DigitsCoerce(a + b);
  }

  /** A typed sales record, as the docstring's expected output shows it. */
  datatype Sale = Sale(
    transactionId: string,
    date: string,
    productId: string,
    productName: string,
    quantity: int,
    unitPrice: real,
    customerId: string,
    region: string)

  /** The record for eight stripped fields, if both numeric fields convert. */
  function SaleOfFields(fs: seq<string>): (r: Option<Sale>)
    requires |fs| == FieldCount
  {
    match (ParseInt(CleanNumber(fs[4])), ParseFloat(CleanNumber(fs[5])))
    case (Some(q), Some(p)) => Some(Sale(fs[0], fs[1], fs[2], CleanField(fs[3]), q, p, fs[6], fs[7]))
    case _ => None
  }

  /** One line: `None` when it is to be skipped, either for the wrong number of fields or
      because a numeric field does not convert. */
  function ParseSale(line: string): (r: Option<Sale>)
    ensures r.Some? ==> Unpacks(line)
  {
    var fs := StrippedFields(line);
    if |fs| != FieldCount then None else SaleOfFields(fs)
  }

  /** A line of eight fields converts as its fields do. */
  lemma ParseSaleFields(line: string)
    requires |StrippedFields(line)| == FieldCount
    ensures ParseSale(line) == SaleOfFields(StrippedFields(line))
  {
  }

  /** Fields whose numeric texts convert give the typed record of those numbers, with the
      ProductName cleaned and every other text kept. */
  lemma SaleOfFieldsConverts(fs: seq<string>, q: int, p: real)
    requires |fs| == FieldCount
    requires ParseInt(CleanNumber(fs[4])) == Some(q) && ParseFloat(CleanNumber(fs[5])) == Some(p)
    ensures SaleOfFields(fs) == Some(Sale(fs[0], fs[1], fs[2], CleanField(fs[3]), q, p, fs[6], fs[7]))
  {
  }

  /** The same, for a trimmed, comma-free ProductName, which cleaning leaves as it is. */
  lemma SaleOfPlainFields(fs: seq<string>, q: int, p: real)
    requires |fs| == FieldCount
    requires ParseInt(CleanNumber(fs[4])) == Some(q) && ParseFloat(CleanNumber(fs[5])) == Some(p)
    requires ',' !in fs[3] && Strip(fs[3]) == fs[3]
    ensures SaleOfFields(fs) == Some(Sale(fs[0], fs[1], fs[2], fs[3], q, p, fs[6], fs[7]))
  {
    SaleOfFieldsConverts(fs, q, p);
    CleanFieldTrimmed(fs[3]);
  }

  /** A line yields a record. */
  predicate Converts(line: string)
  {
    ParseSale(line).Some?
  }

  /** The record a converting line yields (a placeholder for the others). */
  function SaleOf(line: string): Sale
  {
    match ParseSale(line)
    case Some(s) => s
    case None => Sale("", "", "", "", 0, 0.0, "", "")
  }

  /** The corrected `parse_transactions`: never aborts, keeps the converted records in input
      order. */
  function ParseSales(lines: seq<string>): (r: seq<Sale>)
    ensures |r| <= |lines|
  {
    Seqs.FilterMap(lines, Converts, SaleOf)
  }

  /** A line with the wrong number of fields contributes nothing: the result is the same as
      with that line deleted (where the as-written parser fails as a whole). */
  lemma WrongArityIsSkipped(lines: seq<string>, i: nat)
    requires i < |lines| && !Unpacks(lines[i])
    ensures ParseSales(lines) == ParseSales(lines[..i] + lines[i + 1..])
  {
    assert !Converts(lines[i]);
    SkipLine(lines, i);
  }

  /** A line that yields no record can be deleted without changing the result. */
  lemma SkipLine(lines: seq<string>, i: nat)
    requires i < |lines| && !Converts(lines[i])
    ensures ParseSales(lines) == ParseSales(lines[..i] + lines[i + 1..])
  {
    assert lines == lines[..i] + [lines[i]] + lines[i + 1..];
    Seqs.FilterMapSkip(lines[..i], lines[i], lines[i + 1..], Converts, SaleOf);
  }

  /** `qty * price` of a typed record (`Times` is multiplication, by `TimesIsProduct`). */
  function SaleAmount(s: Sale): real
  {
    Times(s.quantity, s.unitPrice)
  }

  /** Sum of the amounts of the records. */
  function SalesSum(ss: seq<Sale>): real
  {
    if |ss| == 0 then 0.0 else SaleAmount(ss[0]) + SalesSum(ss[1..])
  }

  lemma {:induction false} SalesSumAppend(ss: seq<Sale>, s: Sale)
    ensures SalesSum(ss + [s]) == SalesSum(ss) + SaleAmount(s)
    decreases |ss|
  {
    if |ss| > 0 {
      assert (ss + [s])[1..] == ss[1..] + [s];
      SalesSumAppend(ss[1..], s);
    }
  }

  lemma SalesSumCons(s: Sale, ss: seq<Sale>)
    ensures SalesSum([s] + ss) == SaleAmount(s) + SalesSum(ss)
  {
    assert ([s] + ss)[1..] == ss;
  }

  /** A typed record's amount is its quantity times its price. */
  lemma SaleAmountIsProduct(s: Sale)
    ensures SaleAmount(s) == s.quantity as real * s.unitPrice
  {
    TimesIsProduct(s.quantity, s.unitPrice);
  }

  /** The total of two records is the sum of their amounts. */
  lemma TwoSalesSum(a: Sale, b: Sale)
    ensures SalesSum([a, b]) == SaleAmount(a) + SaleAmount(b)
  {
    SalesSumCons(a, [b]);
    SalesSumCons(b, []);
    assert [a] + [b] == [a, b] && [b] + [] == [b];
  }

  /** The corrected `calculate_total_revenue`: always a number, the sum rounded to cents. */
  function TotalRevenue(ss: seq<Sale>): (r: real)
    ensures SalesSum(ss) - 0.005 <= r <= SalesSum(ss) + 0.005
    ensures |ss| == 0 ==> r == 0.0
  {
    Round2(SalesSum(ss))
  }

  /** The numeric fields of a line hold no comma. */
  predicate CommaFreeNumbers(line: string)
  {
    var fs := StrippedFields(line);
    |fs| == FieldCount && ',' !in fs[4] && ',' !in fs[5]
  }

  /** Stripped, comma-free text cleans to itself under both cleanings. */
  lemma CleanCommaFree(f: string)
    requires ',' !in f && Strip(f) == f
    ensures CleanNumber(f) == f && CleanField(f) == f
  {
    CleanFieldTrimmed(f);
  }

  /** On eight stripped fields without commas in the numeric ones, the parser's gate passes
      exactly when the corrected conversion succeeds. */
  lemma FieldsAgreement(fs: seq<string>)
    requires |fs| == FieldCount
    requires ',' !in fs[4] && ',' !in fs[5] && Strip(fs[4]) == fs[4] && Strip(fs[5]) == fs[5]
    ensures PassesGate(fs) <==> SaleOfFields(fs).Some?
  {
    CleanCommaFree(fs[4]);
    CleanCommaFree(fs[5]);
  }

  /** On such fields both records carry the same numbers: the typed record holds the values
      the text converts to, and the as-written record's amount is their product. */
  lemma FieldsAmount(fs: seq<string>, q: int, p: real)
    requires |fs| == FieldCount
    requires ',' !in fs[4] && ',' !in fs[5] && Strip(fs[4]) == fs[4] && Strip(fs[5]) == fs[5]
    requires ParseInt(fs[4]) == Some(q) && ParseFloat(fs[5]) == Some(p)
    ensures SaleOfFields(fs) == Some(Sale(fs[0], fs[1], fs[2], CleanField(fs[3]), q, p, fs[6], fs[7]))
    ensures Amount(Record(fs)) == Some(Times(q, p))
  {
    CleanCommaFree(fs[4]);
    CleanCommaFree(fs[5]);
  }

  /** On a line without commas in its numeric fields, both parsers keep the line or both skip
      it. */
  lemma LineKeptTogether(line: string)
    requires CommaFreeNumbers(line)
    ensures ParseLine(line).Emitted? <==> Converts(line)
  {
    var fs := StrippedFields(line);
    assert ParseLine(line) == (if PassesGate(fs) then Emitted(Record(fs)) else Skipped);
    assert ParseSale(line) == SaleOfFields(fs);
    FieldsAgreement(fs);
  }

  /** ... and a kept line gives the same texts, the cleaned ProductName and the same amount. */
  lemma LineAgreement(line: string)
    requires CommaFreeNumbers(line)
    ensures ParseLine(line).Emitted? <==> Converts(line)
    ensures ParseLine(line).Emitted? ==>
      var t, s := ParseLine(line).record, SaleOf(line);
      && Amount(t) == Some(SaleAmount(s))
      && s.transactionId == t.transactionId && s.date == t.date && s.productId == t.productId
      && s.productName == CleanField(t.productName)
      && s.customerId == t.customerId && s.region == t.region
  {
    var fs := StrippedFields(line);
    assert ParseLine(line) == (if PassesGate(fs) then Emitted(Record(fs)) else Skipped);
    assert ParseSale(line) == SaleOfFields(fs);
    FieldsAgreement(fs);
    if PassesGate(fs) {
      FieldsAmount(fs, ParseInt(fs[4]).value, ParseFloat(fs[5]).value);
    }
  }

  /** The corrected parser takes lines one at a time from the front. */
  lemma ParseSalesCons(lines: seq<string>)
    requires |lines| > 0
    ensures ParseSales(lines) == (if Converts(lines[0]) then [SaleOf(lines[0])] else []) + ParseSales(lines[1..])
  {
  }

  /** Equal amounts in front of equal totals give equal totals. */
  lemma AmountsCons(t: Transaction, s: Sale, ts: seq<Transaction>, ss: seq<Sale>)
    requires Amount(t) == Some(SaleAmount(s)) && RevenueSum(ts) == Some(SalesSum(ss))
    ensures RevenueSum([t] + ts) == Some(SalesSum([s] + ss))
  {
    RevenueSumCons(t, ts);
    SalesSumCons(s, ss);
  }

  /** One more comma-free line in front keeps the two revenues equal. */
  lemma AgreementStep(lines: seq<string>)
    requires |lines| > 0 && CommaFreeNumbers(lines[0])
    requires ParseTransactions(lines[1..]).Some?
    requires RevenueSum(ParseTransactions(lines[1..]).value) == Some(SalesSum(ParseSales(lines[1..])))
    ensures ParseTransactions(lines).Some?
    ensures RevenueSum(ParseTransactions(lines).value) == Some(SalesSum(ParseSales(lines)))
  {
    LineAgreement(lines[0]);
    ParseSalesCons(lines);
    var ts, ss := ParseTransactions(lines[1..]).value, ParseSales(lines[1..]);
    if Converts(lines[0]) {
      var t, s := ParseLine(lines[0]).record, SaleOf(lines[0]);
      ParseTransactionsEmitted(lines);
      AmountsCons(t, s, ts, ss);
    } else {
      ParseTransactionsSkipped(lines);
    }
  }

  /** Where the as-written parser meets no wrong-width line and no comma in a numeric field,
      it succeeds, and the exact total it feeds the revenue fold equals the corrected sum. */
  lemma {:induction false} RevenueSumAgreement(lines: seq<string>)
    requires forall i :: 0 <= i < |lines| ==> CommaFreeNumbers(lines[i])
    ensures ParseTransactions(lines).Some?
    ensures RevenueSum(ParseTransactions(lines).value) == Some(SalesSum(ParseSales(lines)))
  {
    if |lines| > 0 {
      var rest := lines[1..];
      assert forall i :: 0 <= i < |rest| ==> rest[i] == lines[i + 1];
      RevenueSumAgreement(rest);
      AgreementStep(lines);
    }
  }

  /** ... and so the as-written revenue equals the corrected one. */
  lemma RevenueAgreement(lines: seq<string>)
    requires forall i :: 0 <= i < |lines| ==> CommaFreeNumbers(lines[i])
    ensures ParseTransactions(lines).Some?
    ensures CalculateTotalRevenue(ParseTransactions(lines).value) == Some(TotalRevenue(ParseSales(lines)))
  {
    RevenueSumAgreement(lines);
  }
}
