/** `parse_transactions`: split each raw line into eight stripped fields, gate it on the
    comma-cleaned Quantity and UnitPrice coercing to numbers, and emit a record of the
    uncleaned stripped fields. */
module Parser {
  import opened Wrappers
  import opened Text
  import opened Literals
  import opened Reader
  import Seqs

  const FieldCount: nat := 8

  /** The dictionary keys, in the order the fields appear on a line. */
  const Keys: seq<string> :=
    ["TransactionID", "Date", "ProductID", "ProductName", "Quantity", "UnitPrice", "CustomerID", "Region"]

  /** One emitted dictionary. Every value is text: Quantity and UnitPrice keep the field's
      stripped text, not the numbers the gate computed. */
  datatype Transaction = Transaction(
    transactionId: string,
    date: string,
    productId: string,
    productName: string,
    quantity: string,
    unitPrice: string,
    customerId: string,
    region: string)

  /** The record's values in key order: `Values(t)[k]` is the value stored under `Keys[k]`. */
  function Values(t: Transaction): (vs: seq<string>)
    ensures |vs| == |Keys|
  {
    [t.transactionId, t.date, t.productId, t.productName, t.quantity, t.unitPrice, t.customerId, t.region]
  }

  /** `[f.strip() for f in line.split('|')]`: one field more than the line has '|', each field
      free of '|' and already trimmed. */
  function StrippedFields(line: string): (fs: seq<string>)
    ensures |fs| == multiset(line)[Delimiter] + 1
    ensures forall k :: 0 <= k < |fs| ==> Delimiter !in fs[k] && Strip(fs[k]) == fs[k]
  {
    var parts := Split(line, Delimiter);
    SplitCount(line, Delimiter);
    StrippedPieces(parts);
    seq(|parts|, k requires 0 <= k < |parts| => Strip(parts[k]))
  }

  /** Stripping '|'-free pieces leaves them '|'-free and trimmed. */
  lemma StrippedPieces(parts: seq<string>)
    requires forall k :: 0 <= k < |parts| ==> Delimiter !in parts[k]
    ensures forall k :: 0 <= k < |parts| ==> Delimiter !in Strip(parts[k]) && Strip(Strip(parts[k])) == Strip(parts[k])
  {
    forall k | 0 <= k < |parts|
      ensures Delimiter !in Strip(parts[k]) && Strip(Strip(parts[k])) == Strip(parts[k])
    {
      StripKeepsOut(parts[k], Delimiter);
      StripIdempotent(parts[k]);
    }
  }

  /** `f.replace(",", " ").strip()`, applied to ProductName, Quantity and UnitPrice. */
  function CleanField(f: string): string
  {
    Strip(Replace(f, ',', ' '))
  }

  /** The try block: `int()` of the cleaned Quantity and `float()` of the cleaned UnitPrice
      must both succeed. Nothing else about the line is checked. */
  predicate PassesGate(fs: seq<string>)
    requires |fs| == FieldCount
  {
    ParseInt(CleanField(fs[4])).Some? && ParseFloat(CleanField(fs[5])).Some?
  }

  /** The dictionary built from the eight stripped fields. */
  function Record(fs: seq<string>): (t: Transaction)
    requires |fs| == FieldCount
    ensures Values(t) == fs
  {
    Transaction(fs[0], fs[1], fs[2], fs[3], fs[4], fs[5], fs[6], fs[7])
  }

  /** The line splits into exactly as many fields as the unpacking names. */
  predicate Unpacks(line: string)
  {
    |Split(line, Delimiter)| == FieldCount
  }

  /** What the loop body does with one line. `UnpackError` is the ValueError the eight-name
      unpacking raises outside the try block; `Skipped` is the `continue` in the except branch. */
  datatype LineOutcome = UnpackError | Skipped | Emitted(record: Transaction)

  function ParseLine(line: string): (o: LineOutcome)
    ensures o.UnpackError? <==> !Unpacks(line)
    ensures o.UnpackError? <==> multiset(line)[Delimiter] != FieldCount - 1
    ensures o.Emitted? ==> Values(o.record) == StrippedFields(line)
  {
    SplitCount(line, Delimiter);
    var fs := StrippedFields(line);
    if |fs| != FieldCount then UnpackError
    else if PassesGate(fs) then Emitted(Record(fs))
    else Skipped
  }

  /** `parse_transactions(raw_lines)`: `None` when the call raises, which happens as soon as
      any line fails to unpack into eight fields, wherever it sits in the input. */
  function ParseTransactions(lines: seq<string>): (r: Option<seq<Transaction>>)
    ensures r.None? <==> exists i :: 0 <= i < |lines| && !Unpacks(lines[i])
    ensures r.Some? ==> |r.value| <= |lines|
  {
    if |lines| == 0 then Some([])
    else
      var o := ParseLine(lines[0]);
      var rest := ParseTransactions(lines[1..]);
      assert (exists i :: 0 <= i < |lines| && !Unpacks(lines[i]))
        <==> !Unpacks(lines[0]) || exists i :: 0 <= i < |lines[1..]| && !Unpacks(lines[1..][i]) by {
        if exists i :: 0 <= i < |lines| && !Unpacks(lines[i]) {
          var i :| 0 <= i < |lines| && !Unpacks(lines[i]);
          if i > 0 {
            assert lines[1..][i - 1] == lines[i];
          }
        }
      }
      if o.UnpackError? then None
      else if rest.None? then None
      else if o.Emitted? then Some([o.record] + rest.value)
      else rest
  }

  /** An emitted first line puts its record in front of the rest's result. */
  lemma ParseTransactionsEmitted(lines: seq<string>)
    requires |lines| > 0 && ParseLine(lines[0]).Emitted?
    requires ParseTransactions(lines[1..]).Some?
    ensures ParseTransactions(lines) == Some([ParseLine(lines[0]).record] + ParseTransactions(lines[1..]).value)
  {
  }

  /** A skipped first line leaves the rest's result unchanged. */
  lemma ParseTransactionsSkipped(lines: seq<string>)
    requires |lines| > 0 && ParseLine(lines[0]).Skipped?
    ensures ParseTransactions(lines) == ParseTransactions(lines[1..])
  {
  }

  /** One emitted line parses to its record. */
  lemma ParseTransactionsSingle(line: string)
    requires ParseLine(line).Emitted?
    ensures ParseTransactions([line]) == Some([ParseLine(line).record])
  {
    var r := ParseLine(line).record;
    assert [line][1..] == [];
    assert ParseTransactions([]) == Some([]);
    ParseTransactionsEmitted([line]);
    assert ParseTransactions([line]) == Some([r] + ParseTransactions([]).value);
    assert [r] + [] == [r];
  }

  /** Reference reading of the loop: a line contributes iff it is emitted. */
  predicate Accepted(line: string)
  {
    ParseLine(line).Emitted?
  }

  /** The record a line contributes (a placeholder for lines that contribute none). */
  function RecordOf(line: string): Transaction
  {
    match ParseLine(line)
    case Emitted(t) => t
    case _ => Transaction("", "", "", "", "", "", "", "")
  }

  /** When no line breaks the unpacking, the result is the filter of the emitted lines'
      records, in input order. */
  lemma {:induction false} ParseTransactionsFilters(lines: seq<string>)
    requires forall i :: 0 <= i < |lines| ==> !ParseLine(lines[i]).UnpackError?
    ensures ParseTransactions(lines) == Some(Seqs.FilterMap(lines, Accepted, RecordOf))
  {
    if |lines| > 0 {
      assert forall i :: 1 <= i < |lines| ==> lines[1..][i - 1] == lines[i];
      ParseTransactionsFilters(lines[1..]);
    }
  }

  /** The output is exactly the order-preserving subsequence of lines that pass the gate:
      record k comes from the k-th accepted line and equals that line's stripped fields in key
      order; source positions ascend; a line is a source iff it has eight fields and its
      cleaned Quantity and UnitPrice coerce. */
  lemma ParsedAreGatedSubsequence(lines: seq<string>)
    requires ParseTransactions(lines).Some?
    ensures var ts, idx := ParseTransactions(lines).value, Seqs.KeptIndices(lines, Accepted);
      && |ts| == |idx|
      && (forall k :: 0 <= k < |idx| ==> idx[k] < |lines| && Values(ts[k]) == StrippedFields(lines[idx[k]]))
      && (forall k, l :: 0 <= k < l < |idx| ==> idx[k] < idx[l])
      && (forall i :: 0 <= i < |lines| ==>
            (i in idx <==> |StrippedFields(lines[i])| == FieldCount && PassesGate(StrippedFields(lines[i]))))
  {
    ParseTransactionsFilters(lines);
    Seqs.FilterMapSpec(lines, Accepted, RecordOf);
    Seqs.KeptIndicesSpec(lines, Accepted);
  }

  /** A comma with a digit on each side, as in the thousands separator of "45,000". */
  predicate CommaBetweenDigits(f: string)
  {
    exists i :: 0 < i < |f| - 1 && f[i] == ',' && IsDigit(f[i - 1]) && IsDigit(f[i + 1])
  }

  /** Cleaning turns an internal comma into an internal space, and neither `int()` nor
      `float()` accepts a space inside a literal. */
  lemma CommaBetweenDigitsFailsCoercion(f: string)
    requires CommaBetweenDigits(f)
    ensures ParseInt(CleanField(f)).None? && ParseFloat(CleanField(f)).None?
  {
    var i :| 0 < i < |f| - 1 && f[i] == ',' && IsDigit(f[i - 1]) && IsDigit(f[i + 1]);
    var r := Replace(f, ',', ' ');
    var j := StripKeepsInterior(r, i);
    var c := Strip(r);
    assert c[j] == ' ';
    StripIdempotent(r);
    if IsIntLiteral(c) {
      IntLiteralIsFloat(c);
      LiteralCharacters(c, j);
    }
    if IsFloatLiteral(c) {
      LiteralCharacters(c, j);
    }
  }

  /** A well-formed line whose Quantity or UnitPrice has a thousands separator is skipped. */
  lemma ThousandsSeparatorSkipsLine(line: string)
    requires |StrippedFields(line)| == FieldCount
    requires CommaBetweenDigits(StrippedFields(line)[4]) || CommaBetweenDigits(StrippedFields(line)[5])
    ensures ParseLine(line) == Skipped
  {
    var fs := StrippedFields(line);
    if CommaBetweenDigits(fs[4]) {
      CommaBetweenDigitsFailsCoercion(fs[4]);
    } else {
      CommaBetweenDigitsFailsCoercion(fs[5]);
    }
  }

  /** Joining trimmed, pipe-free fields and splitting the line again gives the same fields. */
  lemma StrippedFieldsOfJoin(fs: seq<string>)
    requires |fs| >= 1
    requires forall k :: 0 <= k < |fs| ==> Delimiter !in fs[k] && Strip(fs[k]) == fs[k]
    ensures StrippedFields(Join(fs, Delimiter)) == fs
  {
    SplitJoin(fs, Delimiter);
  }

  /** A trimmed, comma-free field is its own cleaned form. */
  lemma CleanFieldTrimmed(f: string)
    requires ',' !in f && Strip(f) == f
    ensures CleanField(f) == f
  {
    ReplaceAbsent(f, ',', ' ');
  }

  /** The eight fields of the example line below. */
  const ExampleFields: seq<string> := ["X9", "", "P1", "Mouse,Wireless", "-3", "0", "C1", "North"]

  lemma ExampleFieldsTrimmed()
    ensures forall k :: 0 <= k < |ExampleFields| ==> Delimiter !in ExampleFields[k] && Strip(ExampleFields[k]) == ExampleFields[k]
  {
    forall k | 0 <= k < |ExampleFields|
      ensures Delimiter !in ExampleFields[k] && Strip(ExampleFields[k]) == ExampleFields[k]
    {
      StripTrimmed(ExampleFields[k]);
    }
  }

  /** The example's cleaned Quantity "-3" and UnitPrice "0" coerce. */
  lemma ExamplePassesGate()
    ensures PassesGate(ExampleFields)
  {
    var q, p := ExampleFields[4], ExampleFields[5];
    assert q == "-3" && p == "0";
    StripTrimmed(q);
    StripTrimmed(p);
    CleanFieldTrimmed(q);
    CleanFieldTrimmed(p);
    assert Unsigned(q) == "3";
    assert IsIntLiteral(q);
    assert Unsigned(p) == "0";
    assert IsFloatLiteral(p);
  }

  /** No prefix, date or positivity check: a line with a non-"T" transaction id, an empty date,
      a negative quantity and a zero price is emitted, and its ProductName keeps its comma. */
  lemma NoBusinessRulesInParser()
    ensures ParseLine(Join(ExampleFields, Delimiter))
      == Emitted(Transaction("X9", "", "P1", "Mouse,Wireless", "-3", "0", "C1", "North"))
  {
    ExampleFieldsTrimmed();
    StrippedFieldsOfJoin(ExampleFields);
    ExamplePassesGate();
  }
}
