/** How the three steps fit together: the lines `read_sales_data` produces are what
    `parse_transactions` splits, and the records `parse_transactions` emits are what
    `calculate_total_revenue` multiplies out. */
module Pipeline {
  import opened Wrappers
  import opened Text
  import opened Literals
  import Seqs
  import opened Reader
  import opened Parser
  import opened Revenue

  /** No field of a data row contains '|', which the reader's quoting would otherwise allow. */
  predicate PipeFreeRows(rows: seq<seq<string>>)
  {
    forall j, f :: 1 <= j < |rows| && 0 <= f < |rows[j]| ==> Delimiter !in rows[j][f]
  }

  /** Reading and then parsing succeeds exactly when every non-empty data row has eight
      fields: the parser sees each kept row again as its joined line, and a row of any other
      width aborts the whole parse. */
  lemma ReadThenParseSucceeds(rows: seq<seq<string>>)
    requires PipeFreeRows(rows)
    ensures ParseTransactions(Reader.ReadRows(rows)).Some? <==>
      forall j :: 1 <= j < |rows| && |rows[j]| > 0 ==> |rows[j]| == FieldCount
  {
    var lines := Reader.ReadRows(rows);
    if ParseTransactions(lines).Some? {
      forall j | 1 <= j < |rows| && |rows[j]| > 0
        ensures |rows[j]| == FieldCount
      {
        Reader.ReadRowsMembership(rows, Reader.JoinRow(rows[j]));
        JoinedRowUnpacks(rows, j);
      }
    } else {
      var k :| 0 <= k < |lines| && !Unpacks(lines[k]);
      Reader.ReadRowsMembership(rows, lines[k]);
      var j :| 1 <= j < |rows| && |rows[j]| > 0 && lines[k] == Reader.JoinRow(rows[j]);
      JoinedRowUnpacks(rows, j);
    }
  }

  /** A non-empty pipe-free row's joined line unpacks iff the row has eight fields. */
  lemma JoinedRowUnpacks(rows: seq<seq<string>>, j: nat)
    requires PipeFreeRows(rows) && 1 <= j < |rows| && |rows[j]| > 0
    ensures Unpacks(Reader.JoinRow(rows[j])) <==> |rows[j]| == FieldCount
  {
    SplitJoin(rows[j], Delimiter);
  }

  /** For a record whose cleaned Quantity and UnitPrice passed the gate, the revenue fold's
      `int(Quantity) * float(UnitPrice)` on the raw text is defined exactly when neither raw
      field contains a comma. */
  lemma GatedAmount(t: Transaction)
    requires PassesGate(Values(t))
    requires Strip(t.quantity) == t.quantity && Strip(t.unitPrice) == t.unitPrice
    ensures Amount(t).Some? <==> ',' !in t.quantity && ',' !in t.unitPrice
  {
    var q, p := t.quantity, t.unitPrice;
    assert Values(t)[4] == q && Values(t)[5] == p;
    if ',' in q {
      CommaNeverCoerces(q);
    } else if ',' in p {
      CommaNeverCoerces(p);
    } else {
      CleanFieldTrimmed(q);
      CleanFieldTrimmed(p);
    }
  }

  /** When it is defined, the revenue fold multiplies the very numbers the gate computed from
      the cleaned fields. */
  lemma GatedAmountValue(t: Transaction, qty: int, price: real)
    requires ParseInt(CleanField(t.quantity)) == Some(qty) && ParseFloat(CleanField(t.unitPrice)) == Some(price)
    requires ',' !in t.quantity && ',' !in t.unitPrice
    requires Strip(t.quantity) == t.quantity && Strip(t.unitPrice) == t.unitPrice
    ensures Amount(t) == Some(qty as real * price)
  {
    CleanFieldTrimmed(t.quantity);
    CleanFieldTrimmed(t.unitPrice);
    AmountIsProduct(t, qty, price);
  }

  /** Every emitted record passed the gate on its own stripped fields. */
  lemma EmittedRecordGated(line: string)
    requires ParseLine(line).Emitted?
    ensures var t := ParseLine(line).record;
      PassesGate(Values(t)) && Strip(t.quantity) == t.quantity && Strip(t.unitPrice) == t.unitPrice
  {
    var parts := Split(line, Delimiter);
    StripIdempotent(parts[4]);
    StripIdempotent(parts[5]);
  }

  /** The revenue of a successful parse is defined exactly when no emitted record's raw
      Quantity or UnitPrice contains a comma. */
  lemma ParsedRevenueDefined(lines: seq<string>)
    requires ParseTransactions(lines).Some?
    ensures var ts := ParseTransactions(lines).value;
      CalculateTotalRevenue(ts).Some? <==>
        forall k :: 0 <= k < |ts| ==> ',' !in ts[k].quantity && ',' !in ts[k].unitPrice
  {
    var ts := ParseTransactions(lines).value;
    ParsedAreGatedSubsequence(lines);
    var idx := Seqs.KeptIndices(lines, Accepted);
    forall k | 0 <= k < |ts|
      ensures Amount(ts[k]).Some? <==> ',' !in ts[k].quantity && ',' !in ts[k].unitPrice
    {
      var fs := StrippedFields(lines[idx[k]]);
      assert idx[k] in idx;
      var parts := Split(lines[idx[k]], Delimiter);
      assert Values(ts[k])[4] == fs[4] == Strip(parts[4]);
      assert Values(ts[k])[5] == fs[5] == Strip(parts[5]);
      StripIdempotent(parts[4]);
      StripIdempotent(parts[5]);
      GatedAmount(ts[k]);
    }
    RevenueSumDefined(ts);
  }

  /** The eight fields of a line whose Quantity is ",5". */
  const LeadingCommaFields: seq<string> := ["T7", "2024-12-01", "P7", "Pen", ",5", "10", "C7", "East"]

  lemma LeadingCommaFieldsTrimmed()
    ensures forall k :: 0 <= k < |LeadingCommaFields| ==>
      Delimiter !in LeadingCommaFields[k] && Strip(LeadingCommaFields[k]) == LeadingCommaFields[k]
  {
    forall k | 0 <= k < |LeadingCommaFields|
      ensures Delimiter !in LeadingCommaFields[k] && Strip(LeadingCommaFields[k]) == LeadingCommaFields[k]
    {
      StripTrimmed(LeadingCommaFields[k]);
    }
  }

  /** Cleaning ",5" leaves "5", so the gate passes. */
  lemma LeadingCommaPassesGate()
    ensures PassesGate(LeadingCommaFields)
  {
    var q, p := LeadingCommaFields[4], LeadingCommaFields[5];
    assert q == ",5" && p == "10";
    assert Replace(q, ',', ' ') == " 5";
    assert Strip(" 5") == "5";
    assert Unsigned("5") == "5";
    assert IsIntLiteral(CleanField(q));
    StripTrimmed(p);
    CleanFieldTrimmed(p);
    assert Unsigned(p) == "10";
    assert IsFloatLiteral(CleanField(p));
  }

  /** A leading comma passes the parser's gate, the record keeps the raw ",5", and the revenue
      fold's `int(",5")` then raises: the whole revenue call fails. */
  lemma LeadingCommaCrashesRevenue()
    ensures var o := ParseLine(Join(LeadingCommaFields, Delimiter));
      && o.Emitted?
      && o.record.quantity == ",5"
      && CalculateTotalRevenue([o.record]).None?
  {
    LeadingCommaFieldsTrimmed();
    StrippedFieldsOfJoin(LeadingCommaFields);
    LeadingCommaPassesGate();
    var o := ParseLine(Join(LeadingCommaFields, Delimiter));
    CommaNeverCoerces(o.record.quantity);
    NonIntegerQuantityFails([o.record], 0);
  }
}
