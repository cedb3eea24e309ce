/**
 * extract_csv_metadata: the customer name and invoice number from the two
 * header rows, and the purchase-order / sales-order pairs of the data rows,
 * each pair once, in the order of its first occurrence.
 */
module Metadata {
  import opened Text
  import opened Ordering
  import opened Invoice

  /** A purchase-order number with the sales-order number it belongs to. */
  datatype PoSo = PoSo(po: string, so: string)

  /** What extract_csv_metadata returns. */
  datatype CsvMetadata = CsvMetadata(customerName: string, invoiceNumber: string, pairs: seq<PoSo>, error: Option<string>)

  /** The data rows start at row index 7 (the eighth line of the file). */
  const FirstDataRow: nat := 7
  const PoColumn: nat := 9
  const SoColumn: nat := 13

  const ReadError: string := "Error reading CSV: "

  /** Column B of header row r, stripped, or "" when the row is missing or short. */
  function HeaderCell(lines: seq<Row>, r: nat): string {
    if r < |lines| && |lines[r]| > 1 then Strip(lines[r][1]) else ""
  }

  /** The pair a data row contributes: both column 9 and column 13 must be
      non-empty after stripping; the sales order is the part of column 13
      before the first "-", stripped. */
  function PairOf(row: Row): Option<PoSo> {
    var po := Cell(row, PoColumn, "");
    var soFull := Cell(row, SoColumn, "");
    if po == "" || soFull == "" then None
    else Some(PoSo(po, Strip(BeforeFirst(soFull, '-'))))
  }

  /** The pairs of a sequence of data rows, in row order, repeats included. */
  function PairsIn(rows: seq<Row>): seq<PoSo> {
    if rows == [] then []
    else PairsIn(rows[..|rows| - 1]) + PairPart(rows[|rows| - 1])
  }

  function PairPart(row: Row): seq<PoSo> {
    match PairOf(row)
    case Some(k) => [k]
    case None => []
  }

  /** The pairs of the data rows of a file. */
  function QualifyingPairs(lines: seq<Row>): seq<PoSo> {
    if |lines| <= FirstDataRow then [] else PairsIn(lines[FirstDataRow..])
  }

  /** What extract_csv_metadata returns for a file. */
  function MetadataOf(file: CsvFile): CsvMetadata {
    match file
    case ReadFailed(reason) => CsvMetadata("", "", [], Some(ReadError + reason))
    case Rows(lines) => CsvMetadata(HeaderCell(lines, 1), HeaderCell(lines, 0), Dedup(QualifyingPairs(lines)), None)
  }

  /** A row yields a pair exactly when its columns 9 and 13 are both present
      and non-empty after stripping; the purchase order is column 9 stripped,
      and the sales order is a stripped text without "-" that column 13 starts
      with (after its leading whitespace). */
  lemma PairOfSpec(row: Row)
    ensures PairOf(row).Some? <==>
              PoColumn < |row| && Strip(row[PoColumn]) != "" && SoColumn < |row| && Strip(row[SoColumn]) != ""
    ensures PairOf(row).Some? ==>
              && PairOf(row).value.po == Strip(row[PoColumn])
              && '-' !in PairOf(row).value.so
              && IsStripped(PairOf(row).value.so)
              && PairOf(row).value.so == Strip(BeforeFirst(Strip(row[SoColumn]), '-'))
  {
    if PoColumn < |row| && SoColumn < |row| {
      var soFull := Strip(row[SoColumn]);
      var so := Strip(BeforeFirst(soFull, '-'));
      StripSpec(BeforeFirst(soFull, '-'));
      StripWithout(BeforeFirst(soFull, '-'), '-');
      if row[PoColumn] == "" {
        StripOfSpaces(row[PoColumn]);
      }
      if row[SoColumn] == "" {
        StripOfSpaces(row[SoColumn]);
      }
    }
  }

  /** A column 13 value without "-" is the sales order itself. */
  lemma WholeSalesOrder(row: Row)
    requires PairOf(row).Some? && '-' !in Strip(row[SoColumn])
    ensures PairOf(row).value.so == Strip(row[SoColumn])
  {
    var soFull := Strip(row[SoColumn]);
    BeforeFirstIsPrefix(soFull, '-');
    StripSpec(row[SoColumn]);
    StripOfStripped(soFull);
  }

  /** A pair is listed exactly when some data row (index 7 or more) yields it. */
  lemma QualifyingPairsSpec(lines: seq<Row>, k: PoSo)
    ensures k in QualifyingPairs(lines) <==> exists i :: FirstDataRow <= i < |lines| && PairOf(lines[i]) == Some(k)
  {
    if |lines| > FirstDataRow {
      var data := lines[FirstDataRow..];
      assert QualifyingPairs(lines) == PairsIn(data);
      if k in PairsIn(data) {
        var j := PairSource(data, k);
        DataRow(lines, j);
      }
      if exists i :: FirstDataRow <= i < |lines| && PairOf(lines[i]) == Some(k) {
        var i :| FirstDataRow <= i < |lines| && PairOf(lines[i]) == Some(k);
        var j: nat := i - FirstDataRow;
        DataRow(lines, j);
        PairCollected(data, j, k);
      }
    }
  }

  lemma DataRow(lines: seq<Row>, j: nat)
    requires FirstDataRow + j < |lines|
    ensures lines[FirstDataRow..][j] == lines[FirstDataRow + j]
  {
  }

  lemma {:induction false} PairSource(rows: seq<Row>, k: PoSo) returns (i: nat)
    requires k in PairsIn(rows)
    ensures i < |rows| && PairOf(rows[i]) == Some(k)
  {
    var pre := rows[..|rows| - 1];
    var last := rows[|rows| - 1];
    assert PairsIn(rows) == PairsIn(pre) + PairPart(last);
    if k in PairsIn(pre) {
      i := PairSource(pre, k);
      assert rows[i] == pre[i];
    } else {
      assert k in PairPart(last);
      i := |rows| - 1;
    }
  }

  lemma {:induction false} PairCollected(rows: seq<Row>, i: nat, k: PoSo)
    requires i < |rows| && PairOf(rows[i]) == Some(k)
    ensures k in PairsIn(rows)
  {
    var pre := rows[..|rows| - 1];
    var last := rows[|rows| - 1];
    assert PairsIn(rows) == PairsIn(pre) + PairPart(last);
    if i < |pre| {
      assert pre[i] == rows[i];
      PairCollected(pre, i, k);
    } else {
      assert i == |rows| - 1;
      assert PairOf(last) == Some(k);
      assert PairPart(last) == [k];
    }
  }

  /** The reported pairs: no pair twice, every pair of a data row present, no
      other pair, and in the order in which the pairs first occur. */
  lemma ReportedPairs(lines: seq<Row>)
    ensures var pairs := MetadataOf(Rows(lines)).pairs;
            && NoDuplicates(pairs)
            && (forall k :: k in pairs <==> exists i :: FirstDataRow <= i < |lines| && PairOf(lines[i]) == Some(k))
            && forall a, b :: 0 <= a < b < |pairs| ==>
                 FirstIndex(QualifyingPairs(lines), pairs[a]) < FirstIndex(QualifyingPairs(lines), pairs[b])
  {
    DedupSpec(QualifyingPairs(lines));
    forall k
      ensures k in Dedup(QualifyingPairs(lines)) <==> exists i :: FirstDataRow <= i < |lines| && PairOf(lines[i]) == Some(k)
    {
      QualifyingPairsSpec(lines, k);
    }
  }

  /** The listing after one more pair: appended unless already listed. */
  function Push(pairs: seq<PoSo>, next: Option<PoSo>): seq<PoSo> {
    match next
    case None => pairs
    case Some(k) => if k in pairs then pairs else pairs + [k]
  }

  /** Dedup over one more pair: it is appended unless already listed. */
  lemma DedupSnoc(xs: seq<PoSo>, x: PoSo)
    ensures Dedup(xs + [x]) == Push(Dedup(xs), Some(x))
  {
    assert (xs + [x])[..|xs|] == xs;
    assert (xs + [x])[|xs|] == x;
  }

  /** Dedup over one more data row is Push of that row's pair. */
  lemma DedupStep(rows: seq<Row>, i: nat)
    requires i < |rows|
    ensures Dedup(PairsIn(rows[..i + 1])) == Push(Dedup(PairsIn(rows[..i])), PairOf(rows[i]))
  {
    var before := PairsIn(rows[..i]);
    assert rows[..i + 1][..i] == rows[..i];
    assert rows[..i + 1][i] == rows[i];
    assert PairsIn(rows[..i + 1]) == before + PairPart(rows[i]);
    match PairOf(rows[i])
    case None =>
      assert PairPart(rows[i]) == [];
      assert before + [] == before;
    case Some(k) =>
      assert PairPart(rows[i]) == [k];
      DedupSnoc(before, k);
  }

  /** One pass of the loop body: a row whose columns 9 and 13 are both
      non-empty gives a key, which is appended the first time it is seen. */
  method AddPair(pairs: seq<PoSo>, seen: set<PoSo>, row: Row) returns (pairs': seq<PoSo>, seen': set<PoSo>)
    requires forall k :: k in seen <==> k in pairs
    ensures pairs' == Push(pairs, PairOf(row))
    ensures forall k :: k in seen' <==> k in pairs'
  {
    pairs', seen' := pairs, seen;
    if row == [] {
      assert PairOf(row) == None;
      return;
    }
    var po := Cell(row, PoColumn, "");
    var soFull := Cell(row, SoColumn, "");
    if po == "" || soFull == "" {
      assert PairOf(row) == None;
      return;
    }
    var so := Strip(BeforeFirst(soFull, '-'));
    var key := PoSo(po, so);
    assert PairOf(row) == Some(key);
    if key !in seen {
      seen' := seen + {key};
      pairs' := pairs + [key];
    }
  }

  /** The loop over the data rows, with its `seen` set. */
  method CollectPairs(data: seq<Row>) returns (pairs: seq<PoSo>)
    ensures pairs == Dedup(PairsIn(data))
  {
    var seen: set<PoSo> := {};
    pairs := [];
    var i := 0;
    assert data[..0] == [];
    while i < |data|
      invariant 0 <= i <= |data|
      invariant pairs == Dedup(PairsIn(data[..i]))
      invariant forall k :: k in seen <==> k in pairs
    {
      DedupStep(data, i);
      pairs, seen := AddPair(pairs, seen, data[i]);
      i := i + 1;
    }
    assert data[..|data|] == data;
  }

  /** extract_csv_metadata */
  method ExtractCsvMetadata(file: CsvFile)
    returns (customerName: string, invoiceNumber: string, pairs: seq<PoSo>, error: Option<string>)
    ensures CsvMetadata(customerName, invoiceNumber, pairs, error) == MetadataOf(file)
  {
    customerName := "";
    invoiceNumber := "";
    pairs := [];
    error := None;
    if file.ReadFailed? {
      error := Some(ReadError + file.reason);
      return;
    }
    var lines := file.rows;
    if |lines| > 0 && |lines[0]| > 1 {
      invoiceNumber := Strip(lines[0][1]);
    }
    if |lines| > 1 && |lines[1]| > 1 {
      customerName := Strip(lines[1][1]);
    }
    if |lines| > FirstDataRow {
      pairs := CollectPairs(lines[FirstDataRow..]);
    } else {
      assert Dedup(QualifyingPairs(lines)) == [];
    }
  }
}
