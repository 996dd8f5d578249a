/** A two-line sample worked through both versions: with "45,000" as the first line's
    UnitPrice, the parser as written drops that line and the revenue is 19000.00, where the sum
    of Quantity x UnitPrice over both lines is 2 x 45000 + 38 x 500 = 109000.00.

    Several lemmas here take a field or record as a parameter pinned by a `requires` (`s ==
    "45,000"`, `t.quantity == ShowNat(38)`) rather than writing the literal into the ensures;
    `ShowNat(38)` is the text "38". A literal argument makes the verifier evaluate `Strip` and
    the literal scanners eagerly, character by character; pinning the value keeps each step a
    small lemma about the literal's parts, and the requires still admits exactly one value. */
module Findings {
  import opened Wrappers
  import opened Text
  import opened Literals
  import opened Reader
  import opened Parser
  import opened Revenue
  import opened Intended
  import Pipeline

  const LaptopFields: seq<string> := ["T001", "2024-12-01", "P101", "Laptop", "2", "45,000", "C001", "North"]
  const MouseFields: seq<string> := ["T002", "2024-12-01", "P102", "Mouse", "38", "500", "C002", "South"]

  function SampleLines(): seq<string>
  {
    [Join(LaptopFields, Delimiter), Join(MouseFields, Delimiter)]
  }

  /** The sample's fields hold no '|' and no surrounding whitespace, so splitting each line
      gives them back. */
  lemma SampleFieldsOfLines()
    ensures StrippedFields(SampleLines()[0]) == LaptopFields
    ensures StrippedFields(SampleLines()[1]) == MouseFields
  {
    forall k | 0 <= k < |LaptopFields|
      ensures Delimiter !in LaptopFields[k] && Strip(LaptopFields[k]) == LaptopFields[k]
    {
      StripTrimmed(LaptopFields[k]);
    }
    forall k | 0 <= k < |MouseFields|
      ensures Delimiter !in MouseFields[k] && Strip(MouseFields[k]) == MouseFields[k]
    {
      StripTrimmed(MouseFields[k]);
    }
    StrippedFieldsOfJoin(LaptopFields);
    StrippedFieldsOfJoin(MouseFields);
  }

  /** The decimal text of a number: both cleanings leave it alone, and `int()` and `float()`
      read the number back. */
  lemma NumberText(s: string, n: nat)
    requires s == ShowNat(n)
    ensures CleanField(s) == s && CleanNumber(s) == s
    ensures ParseInt(s) == Some(n) && ParseFloat(s) == Some(n as real)
  {
    DigitsValueShowNat(n);
    ReplaceAbsentDigits(s);
    assert !IsSpace(s[0]) && !IsSpace(s[|s| - 1]);
    StripTrimmed(s);
    CleanCommaFree(s);
    DigitsCoerce(s);
  }

  /** The fields of the first sample line, as the lemmas below use them. */
  lemma LaptopFieldTexts(fs: seq<string>)
    requires fs == LaptopFields
    ensures |fs| == FieldCount
    ensures fs[0] == "T001" && fs[1] == "2024-12-01" && fs[2] == "P101" && fs[3] == "Laptop"
    ensures fs[4] == ShowNat(2) && fs[5] == "45,000" && fs[6] == "C001" && fs[7] == "North"
    ensures ',' !in fs[3] && Strip(fs[3]) == fs[3]
  {
    StripTrimmed(fs[3]);
  }

  /** The fields of the second sample line. */
  lemma MouseFieldTexts(fs: seq<string>)
    requires fs == MouseFields
    ensures |fs| == FieldCount
    ensures fs[0] == "T002" && fs[1] == "2024-12-01" && fs[2] == "P102" && fs[3] == "Mouse"
    ensures fs[4] == ShowNat(38) && fs[5] == ShowNat(500) && fs[6] == "C002" && fs[7] == "South"
    ensures ',' !in fs[3] && Strip(fs[3]) == fs[3]
  {
    StripTrimmed(fs[3]);
  }

  /** Digit groups joined by a thousands separator read, under the corrected cleaning, as the
      number the groups spell together. */
  lemma GroupedNumber(s: string, a: string, b: string, n: nat)
    requires |a| > 0 && |b| > 0 && AllDigits(a) && AllDigits(b)
    requires s == a + "," + b && a + b == ShowNat(n)
    ensures ParseFloat(CleanNumber(s)) == Some(n as real)
  {
    ThousandsSeparatorAccepted(a, b);
    DigitsValueShowNat(n);
  }

  /** The corrected cleaning reads "45,000" as 45000.0. */
  lemma LaptopPrice(s: string)
    requires s == "45,000"
    ensures ParseFloat(CleanNumber(s)) == Some(45000.0)
  {
    assert "45" + "000" == ShowNat(45000);
    GroupedNumber(s, "45", "000", 45000);
  }

  /** The as-written parser skips a line with the first sample's fields: its UnitPrice has a
      thousands separator. */
  lemma LaptopSkipped(line: string)
    requires StrippedFields(line) == LaptopFields
    ensures ParseLine(line) == Skipped
  {
    var fs := StrippedFields(line);
    LaptopFieldTexts(fs);
    assert CommaBetweenDigits(fs[5]) by {
      assert fs[5][2] == ',' && IsDigit(fs[5][1]) && IsDigit(fs[5][3]);
    }
    ThousandsSeparatorSkipsLine(line);
  }

  /** The as-written parser emits a line with the second sample's fields as text. */
  lemma MouseEmitted(line: string)
    requires StrippedFields(line) == MouseFields
    ensures ParseLine(line) == Emitted(Transaction("T002", "2024-12-01", "P102", "Mouse", "38", "500", "C002", "South"))
  {
    var fs := StrippedFields(line);
    MouseFieldTexts(fs);
    NumberText(fs[4], 38);
    NumberText(fs[5], 500);
    assert PassesGate(fs);
  }

  /** The as-written parse keeps only the second line, with its text fields. */
  lemma AsWrittenSampleParse()
    ensures ParseTransactions(SampleLines())
      == Some([Transaction("T002", "2024-12-01", "P102", "Mouse", "38", "500", "C002", "South")])
  {
    SampleFieldsOfLines();
    var lines := SampleLines();
    LaptopSkipped(lines[0]);
    MouseEmitted(lines[1]);
    SkipThenEmit(lines[0], lines[1]);
  }

  /** A skipped line followed by an emitted one parses to that one record. */
  lemma SkipThenEmit(a: string, b: string)
    requires ParseLine(a).Skipped? && ParseLine(b).Emitted?
    ensures ParseTransactions([a, b]) == Some([ParseLine(b).record])
  {
    ParseTransactionsSingle(b);
    assert [a, b][1..] == [b];
    ParseTransactionsSkipped([a, b]);
  }

  /** ... so the as-written revenue is 38 x 500 = 19000.00. */
  lemma AsWrittenSampleRevenue()
    ensures ParseTransactions(SampleLines()).Some?
    ensures CalculateTotalRevenue(ParseTransactions(SampleLines()).value) == Some(19000.0)
  {
    AsWrittenSampleParse();
    MouseRevenue(ParseTransactions(SampleLines()).value);
  }

  /** The revenue of the second sample record alone is 38 x 500. */
  lemma MouseRevenue(ts: seq<Transaction>)
    requires ts == [Transaction("T002", "2024-12-01", "P102", "Mouse", "38", "500", "C002", "South")]
    ensures CalculateTotalRevenue(ts) == Some(19000.0)
  {
    var t := ts[0];
    assert ts == [t];
    MouseAmount(t);
    OneRecordRevenue(t);
    Round2Cents(1900000);
  }

  /** The second sample record's amount is 38 x 500. */
  lemma MouseAmount(t: Transaction)
    requires t.quantity == ShowNat(38) && t.unitPrice == ShowNat(500)
    ensures Amount(t) == Some(19000.0)
  {
    NumberText(t.quantity, 38);
    NumberText(t.unitPrice, 500);
    AmountIsProduct(t, 38, 500.0);
  }

  /** The revenue of one record is its rounded amount. */
  lemma OneRecordRevenue(t: Transaction)
    requires Amount(t).Some?
    ensures CalculateTotalRevenue([t]) == Some(Round2(Amount(t).value))
  {
    RevenueSumAppend([], t);
    assert [] + [t] == [t];
  }

  /** The corrected parser converts the first sample's fields, thousands separator and all. */
  lemma LaptopSale(line: string)
    requires StrippedFields(line) == LaptopFields
    ensures ParseSale(line) == Some(Sale("T001", "2024-12-01", "P101", "Laptop", 2, 45000.0, "C001", "North"))
  {
    var fs := StrippedFields(line);
    ParseSaleFields(line);
    LaptopFieldTexts(fs);
    NumberText(fs[4], 2);
    LaptopPrice(fs[5]);
    SaleOfPlainFields(fs, 2, 45000.0);
  }

  lemma MouseSale(line: string)
    requires StrippedFields(line) == MouseFields
    ensures ParseSale(line) == Some(Sale("T002", "2024-12-01", "P102", "Mouse", 38, 500.0, "C002", "South"))
  {
    var fs := StrippedFields(line);
    ParseSaleFields(line);
    MouseFieldTexts(fs);
    NumberText(fs[4], 38);
    NumberText(fs[5], 500);
    SaleOfPlainFields(fs, 38, 500.0);
  }

  /** The corrected parse keeps both lines, typed. */
  lemma IntendedSampleParse()
    ensures ParseSales(SampleLines()) == [
      Sale("T001", "2024-12-01", "P101", "Laptop", 2, 45000.0, "C001", "North"),
      Sale("T002", "2024-12-01", "P102", "Mouse", 38, 500.0, "C002", "South")]
  {
    SampleFieldsOfLines();
    var lines := SampleLines();
    LaptopSale(lines[0]);
    MouseSale(lines[1]);
    BothConvert(lines[0], lines[1]);
  }

  /** Two converting lines give their two records. */
  lemma BothConvert(a: string, b: string)
    requires Converts(a) && Converts(b)
    ensures ParseSales([a, b]) == [SaleOf(a), SaleOf(b)]
  {
    ParseSalesCons([a, b]);
    assert [a, b][1..] == [b];
    ParseSalesCons([b]);
    assert [b][1..] == [];
  }

  /** ... and the corrected revenue is 2 x 45000 + 38 x 500 = 109000.00. */
  lemma IntendedSampleRevenue()
    ensures TotalRevenue(ParseSales(SampleLines())) == 109000.0
  {
    IntendedSampleParse();
    SampleSalesRevenue(ParseSales(SampleLines()));
  }

  /** The corrected revenue of the two typed sample records. */
  lemma SampleSalesRevenue(ss: seq<Sale>)
    requires ss == [
      Sale("T001", "2024-12-01", "P101", "Laptop", 2, 45000.0, "C001", "North"),
      Sale("T002", "2024-12-01", "P102", "Mouse", 38, 500.0, "C002", "South")]
    ensures TotalRevenue(ss) == 109000.0
  {
    TwoSalesSum(ss[0], ss[1]);
    assert ss == [ss[0], ss[1]];
    SaleAmountIsProduct(ss[0]);
    SaleAmountIsProduct(ss[1]);
    Round2Cents(10900000);
  }

  /** The fields of the ",5" line. */
  lemma LeadingCommaFieldTexts(fs: seq<string>)
    requires fs == Pipeline.LeadingCommaFields
    ensures |fs| == FieldCount
    ensures fs[0] == "T7" && fs[1] == "2024-12-01" && fs[2] == "P7" && fs[3] == "Pen"
    ensures fs[4] == ",5" && fs[5] == ShowNat(10) && fs[6] == "C7" && fs[7] == "East"
    ensures ',' !in fs[3] && Strip(fs[3]) == fs[3]
  {
    StripTrimmed(fs[3]);
  }

  /** The corrected cleaning reads ",5" as 5. */
  lemma LeadingCommaQuantity(s: string)
    requires s == ",5"
    ensures ParseInt(CleanNumber(s)) == Some(5)
  {
    var r := Remove(s, ',');
    assert r == ShowNat(5);
    NumberText(r, 5);
    ReplaceAbsentDigits(r);
  }

  /** The corrected parser reads a line with the ",5" fields as quantity 5. */
  lemma LeadingCommaSale(line: string)
    requires StrippedFields(line) == Pipeline.LeadingCommaFields
    ensures ParseSale(line) == Some(Sale("T7", "2024-12-01", "P7", "Pen", 5, 10.0, "C7", "East"))
  {
    var fs := StrippedFields(line);
    ParseSaleFields(line);
    LeadingCommaFieldTexts(fs);
    LeadingCommaQuantity(fs[4]);
    NumberText(fs[5], 10);
    SaleOfPlainFields(fs, 5, 10.0);
  }

  /** Where the as-written record keeps ",5" and makes the revenue call fail, the corrected
      parser reads the line as quantity 5, and the corrected revenue is 5 x 10 = 50.00. */
  lemma LeadingCommaIntended()
    ensures ParseSales([Join(Pipeline.LeadingCommaFields, Delimiter)])
      == [Sale("T7", "2024-12-01", "P7", "Pen", 5, 10.0, "C7", "East")]
    ensures TotalRevenue(ParseSales([Join(Pipeline.LeadingCommaFields, Delimiter)])) == 50.0
  {
    var line := Join(Pipeline.LeadingCommaFields, Delimiter);
    Pipeline.LeadingCommaFieldsTrimmed();
    StrippedFieldsOfJoin(Pipeline.LeadingCommaFields);
    LeadingCommaSale(line);
    var s := Sale("T7", "2024-12-01", "P7", "Pen", 5, 10.0, "C7", "East");
    OneConverts(line);
    TimesIsProduct(5, 10.0);
    SalesSumCons(s, []);
    Round2Cents(5000);
  }

  /** A converting line alone gives its record. */
  lemma OneConverts(a: string)
    requires Converts(a)
    ensures ParseSales([a]) == [SaleOf(a)]
  {
    ParseSalesCons([a]);
    assert [a][1..] == [];
  }
}
