/**
 * analyze_invoice: one invoice CSV file, already split into rows of cells.
 *
 * Only rows whose first cell normalises to "ITEM" are read. Each such row
 * contributes its Box 5 value (column 9) and, depending on its
 * country-of-origin / weight field (column 16), either an EU item, a non-EU
 * item together with its weight, a "Missing COO" alert, or nothing.
 */
module Invoice {
  import opened Text
  import opened Ordering
  import opened Country
  import opened CooPattern

  type Row = seq<string>

  /** The rows the csv reader delivers, or the reason the file could not be read. */
  datatype CsvFile = Rows(rows: seq<Row>) | ReadFailed(reason: string)

  /** The byte-order mark _norm strips from the front of a cell. */
  const Bom: char := '\U{FEFF}'

  /** The text every alert starts with: warning sign, variation selector, arrow. */
  const AlertPrefix: string := "\U{26A0}\U{FE0F} Missing COO \U{2192} "

  /** The text the single entry of an unreadable file's alert list starts with. */
  const ErrorPrefix: string := "Error during analysis: "

  /** s.lstrip(c) */
  function DropLeading(s: string, c: char): (r: string)
    ensures |r| <= |s| && r == s[|s| - |r|..]
    ensures forall i :: 0 <= i < |s| - |r| ==> s[i] == c
    ensures r == [] || r[0] != c
  {
    if s != [] && s[0] == c then DropLeading(s[1..], c) else s
  }

  /** _norm: strip whitespace, then leading byte-order marks, then upper-case. */
  function Norm(s: string): string {
    Upper(DropLeading(Strip(s), Bom))
  }

  /** The rows analyze_invoice processes: non-empty, first cell "ITEM" after _norm. */
  predicate IsItemRow(row: Row) {
    |row| > 0 && Norm(row[0]) == "ITEM"
  }

  /** c is whitespace c[..i], byte-order marks c[i..k], a word c[k..j] that
      upper-cases to "ITEM", and whitespace c[j..]. */
  predicate ItemCellShape(c: string, i: nat, k: nat, j: nat) {
    && i <= k <= j <= |c| && AllSpace(c[..i]) && AllSpace(c[j..])
    && (forall x :: i <= x < k ==> c[x] == Bom) && Upper(c[k..j]) == "ITEM"
  }

  /** A first cell is accepted exactly when it is "item" in any letter case,
      preceded by byte-order marks and surrounded by whitespace, with no
      whitespace between the marks and the word. */
  lemma NormItemSpec(c: string)
    ensures Norm(c) == "ITEM" <==> exists i, k, j :: ItemCellShape(c, i, k, j)
  {
    if Norm(c) == "ITEM" {
      NormItemShape(c);
    }
    if exists i, k, j :: ItemCellShape(c, i, k, j) {
      var i: nat, k: nat, j: nat :| ItemCellShape(c, i, k, j);
      ShapeNormsToItem(c, i, k, j);
    }
  }

  lemma NormItemShape(c: string)
    requires Norm(c) == "ITEM"
    ensures exists i, k, j :: ItemCellShape(c, i, k, j)
  {
    var i, j := StripBounds(c);
    var d := DropLeading(c[i..j], Bom);
    ShapeOfParts(c, i, j, d);
  }

  lemma ShapeOfParts(c: string, i: nat, j: nat, d: string)
    requires i <= j <= |c| && AllSpace(c[..i]) && AllSpace(c[j..])
    requires d == DropLeading(c[i..j], Bom) && Upper(d) == "ITEM"
    ensures ItemCellShape(c, i, i + (j - i - |d|), j)
  {
    var m := c[i..j];
    var k := i + (j - i - |d|);
    assert c[k..j] == d;
    forall x | i <= x < k
      ensures c[x] == Bom
    {
      assert c[x] == m[x - i];
    }
  }

  lemma ShapeNormsToItem(c: string, i: nat, k: nat, j: nat)
    requires ItemCellShape(c, i, k, j)
    ensures Norm(c) == "ITEM"
  {
    var m := c[i..j];
    assert Strip(c) == m by {
      ShapeIsStripped(c, i, k, j);
      assert c == c[..i] + m + c[j..];
      StripAround(c[..i], m, c[j..]);
    }
    assert DropLeading(m, Bom) == c[k..j] by {
      assert m[k - i..] == c[k..j];
      assert UpperChar(c[k..j][0]) == 'I';
      DropBoms(m, k - i);
    }
  }

  lemma ShapeIsStripped(c: string, i: nat, k: nat, j: nat)
    requires ItemCellShape(c, i, k, j)
    ensures c[i..j] != [] && IsStripped(c[i..j])
  {
    var m := c[i..j];
    var v := c[k..j];
    assert |v| == 4 && UpperChar(v[0]) == 'I' && UpperChar(v[3]) == 'M';
    assert m[|m| - 1] == v[3];
    if k > i {
      assert m[0] == c[i] == Bom;
    } else {
      assert m[0] == v[0];
    }
  }

  lemma {:induction false} DropBoms(m: string, n: nat)
    requires n <= |m| && (forall x :: 0 <= x < n ==> m[x] == Bom) && (n == |m| || m[n] != Bom)
    ensures DropLeading(m, Bom) == m[n..]
    decreases n
  {
    if n > 0 {
      assert m[1..][n - 1..] == m[n..];
      DropBoms(m[1..], n - 1);
    }
  }

  /** A byte-order mark followed by whitespace hides the word from the filter:
      the marks are dropped only after the whitespace has been stripped. */
  lemma MarkBeforeSpaceIsNotItem()
    ensures Norm("\U{FEFF} ITEM") != "ITEM"
  {
    var c := "\U{FEFF} ITEM";
    assert IsStripped(c) by {
      assert c[0] == Bom && c[|c| - 1] == 'M';
    }
    StripOfStripped(c);
    assert DropLeading(c, Bom) == " ITEM" by {
      assert c[1..] == " ITEM";
    }
    assert Norm(c)[0] == ' ';
  }

  // ---------------------------------------------------------------------
  // Guarded cell reads
  // ---------------------------------------------------------------------

  const LineColumn: nat := 1
  const DescriptionColumn: nat := 5
  const Box5Column: nat := 9
  const CatalogColumn: nat := 11
  const CooColumn: nat := 16

  /** row[k].strip() if len(row) > k and row[k] else default */
  function Cell(row: Row, k: nat, default: string): string {
    if k < |row| && row[k] != "" then Strip(row[k]) else default
  }

  function Catalog(row: Row): string {
    Cell(row, CatalogColumn, "Unknown")
  }

  function Description(row: Row): string {
    Cell(row, DescriptionColumn, "Unknown")
  }

  function LineNumber(row: Row): string {
    Cell(row, LineColumn, "Unknown")
  }

  function CooField(row: Row): string {
    Cell(row, CooColumn, "")
  }

  /** The defaults: "Unknown" for a column the row lacks or an empty cell;
      a cell of whitespace only is present and reads as the empty text. */
  lemma CellDefaults(row: Row, k: nat, default: string)
    ensures k >= |row| ==> Cell(row, k, default) == default
    ensures k < |row| && row[k] == "" ==> Cell(row, k, default) == default
    ensures k < |row| && row[k] != "" && AllSpace(row[k]) ==> Cell(row, k, default) == ""
    ensures k < |row| && row[k] != "" ==> IsStripped(Cell(row, k, default))
  {
    if k < |row| && row[k] != "" {
      StripSpec(row[k]);
      if AllSpace(row[k]) {
        StripOfSpaces(row[k]);
      }
    }
  }

  /** The Box 5 value a row contributes: column 9 stripped, if that is not empty. */
  function Box5Of(row: Row): (r: set<string>)
    ensures |r| <= 1
    ensures forall x :: x in r ==> x != "" && Box5Column < |row| && x == Strip(row[Box5Column])
  {
    if Box5Column < |row| && row[Box5Column] != "" && Strip(row[Box5Column]) != ""
    then {Strip(row[Box5Column])}
    else {}
  }

  // ---------------------------------------------------------------------
  // Items and alerts
  // ---------------------------------------------------------------------

  /** f"{catalog}, {description}, {country_name}" */
  function ItemText(catalog: string, description: string, country: string): string {
    catalog + ", " + description + ", " + country
  }

  /** The weight text of an alert: the part after the last "/", stripped, with
      every whitespace run collapsed to one space. */
  function NormalizeWeight(t: string): (r: string)
    ensures '/' !in r && IsStripped(r)
  {
    var tail := WeightTail(t);
    CollapseWithout(tail, '/');
    CollapseStripped(tail);
    Collapse(tail)
  }

  /** The part after the last "/", stripped, or the whole text without a "/". */
  function WeightTail(t: string): (r: string)
    ensures '/' !in r
  {
    if '/' in t then
      StripWithout(AfterLast(t, '/'), '/');
      Strip(AfterLast(t, '/'))
    else t
  }

  /** Normalising a weight text a second time changes nothing. */
  lemma NormalizeWeightIdempotent(t: string)
    ensures NormalizeWeight(NormalizeWeight(t)) == NormalizeWeight(t)
  {
    CollapseIdempotent(WeightTail(t));
  }

  /** The four lines of a "Missing COO" alert after its prefix. */
  function AlertLines(line: string, catalog: string, description: string, weight: string): seq<string> {
    ["Line " + line, " Product: " + catalog, " Desc: " + description, " Weight: " + weight]
  }

  /** The four-line "Missing COO" alert. */
  function AlertText(line: string, catalog: string, description: string, weight: string): (a: string)
    ensures StartsWith(a, AlertPrefix)
  {
    var body := Join(AlertLines(line, catalog, description, weight), "\n");
    assert (AlertPrefix + body)[..|AlertPrefix|] == AlertPrefix;
    AlertPrefix + body
  }

  /** What one row yields. */
  datatype LineOutcome =
    | NotItem                                            // not an ITEM row
    | Classified(item: string, isEu: bool, weightKg: real)
    | MissingCoo(alert: string)                           // no match, but a "/" in the field
    | NoCoo                                               // no match and no "/"

  /** The COO / weight handling of one row. */
  function ExtractLine(row: Row, iso: map<string, string>): LineOutcome {
    if !IsItemRow(row) then NotItem
    else
      var field := CooField(row);
      Outcome(field, Search(field), LineNumber(row), Catalog(row), Description(row), iso)
  }

  /** What an ITEM row yields once its field has been searched: the item and
      its weight for a match, an alert when there is none but the field holds
      a "/", and nothing otherwise. */
  function Outcome(field: string, found: Option<CooMatch>, line: string, catalog: string, description: string,
                   iso: map<string, string>): LineOutcome
    requires found.Some? ==> IsMatch(field, found.value)
  {
    match found
    case None =>
      if '/' in field
      then MissingCoo(AlertText(line, catalog, description, NormalizeWeight(field)))
      else NoCoo
    case Some(m) =>
      var coo := CodeOf(field, m);
      Classified(ItemText(catalog, description, InvoiceCountryName(coo, iso)),
                 IsEu(coo), WeightKg(WeightTextOf(field, m), UnitOf(field, m)))
  }

  /** A row is classified exactly when it is an ITEM row and the pattern
      matches its field; it raises an alert exactly when it is an ITEM row and
      the pattern matches nowhere in a field that holds a "/". */
  lemma ExtractLineSpec(row: Row, iso: map<string, string>)
    ensures ExtractLine(row, iso).NotItem? <==> !IsItemRow(row)
    ensures ExtractLine(row, iso).Classified? <==> IsItemRow(row) && exists m :: IsMatch(CooField(row), m)
    ensures ExtractLine(row, iso).MissingCoo? <==>
              IsItemRow(row) && (forall m :: !IsMatch(CooField(row), m)) && '/' in CooField(row)
    ensures ExtractLine(row, iso).Classified? ==> ExtractLine(row, iso).weightKg >= 0.0
    ensures ExtractLine(row, iso).MissingCoo? ==>
              ExtractLine(row, iso).alert
              == AlertText(LineNumber(row), Catalog(row), Description(row), NormalizeWeight(CooField(row)))
  {
  }

  /** A row is classified by the leftmost match of the pattern in its field:
      its code decides EU membership and the country name, and its numeral
      and unit give the weight. */
  lemma ClassifiedSpec(row: Row, iso: map<string, string>, m: CooMatch)
    requires IsItemRow(row) && IsMatch(CooField(row), m)
    requires forall m' :: IsMatch(CooField(row), m') ==> m.slash <= m'.slash
    ensures var field := CooField(row);
            var coo := CodeOf(field, m);
            ExtractLine(row, iso)
            == Classified(ItemText(Catalog(row), Description(row), InvoiceCountryName(coo, iso)),
                          IsEu(coo), WeightKg(WeightTextOf(field, m), UnitOf(field, m)))
  {
    LeftmostIsFound(CooField(row), m);
  }

  // ---------------------------------------------------------------------
  // The whole file
  // ---------------------------------------------------------------------

  /** The accumulators of the row loop. */
  datatype Tally = Tally(nonEu: seq<string>, eu: seq<string>, weightKg: real, box5: set<string>, alerts: seq<string>)

  const EmptyTally: Tally := Tally([], [], 0.0, {}, [])

  /** One pass of the row loop. */
  function Step(t: Tally, row: Row, iso: map<string, string>): Tally {
    if !IsItemRow(row) then t
    else Record(t.(box5 := t.box5 + Box5Of(row)), ExtractLine(row, iso))
  }

  /** What an outcome adds: an item to one of the two lists (and, for a
      non-EU item, its weight to the total), or an alert. */
  function Record(t: Tally, o: LineOutcome): Tally {
    match o
    case Classified(item, eu, w) =>
      if eu then t.(eu := t.eu + [item])
      else t.(nonEu := t.nonEu + [item], weightKg := t.weightKg + w)
    case MissingCoo(a) => t.(alerts := t.alerts + [a])
    case _ => t
  }

  /** The accumulators after the loop has visited every row of rows. */
  function Scan(rows: seq<Row>, iso: map<string, string>): Tally {
    if rows == [] then EmptyTally
    else Step(Scan(rows[..|rows| - 1], iso), rows[|rows| - 1], iso)
  }

  // What each row contributes to each accumulator, one row at a time

  function EuPart(o: LineOutcome): seq<string> {
    if o.Classified? && o.isEu then [o.item] else []
  }

  function NonEuPart(o: LineOutcome): seq<string> {
    if o.Classified? && !o.isEu then [o.item] else []
  }

  function WeightPart(o: LineOutcome): real {
    if o.Classified? && !o.isEu then o.weightKg else 0.0
  }

  function AlertPart(o: LineOutcome): seq<string> {
    if o.MissingCoo? then [o.alert] else []
  }

  function Box5Part(row: Row): set<string> {
    if IsItemRow(row) then Box5Of(row) else {}
  }

  /** One Step adds exactly the row's parts to the five accumulators. */
  lemma StepParts(t: Tally, row: Row, iso: map<string, string>)
    ensures var o := ExtractLine(row, iso);
            var t' := Step(t, row, iso);
            && t'.eu == t.eu + EuPart(o) && t'.nonEu == t.nonEu + NonEuPart(o)
            && t'.weightKg == t.weightKg + WeightPart(o) && t'.alerts == t.alerts + AlertPart(o)
            && t'.box5 == t.box5 + Box5Part(row)
  {
    if IsItemRow(row) {
      RecordParts(t.(box5 := t.box5 + Box5Of(row)), ExtractLine(row, iso));
    } else {
      assert ExtractLine(row, iso) == NotItem;
    }
  }

  lemma RecordParts(t: Tally, o: LineOutcome)
    ensures var t' := Record(t, o);
            && t'.eu == t.eu + EuPart(o) && t'.nonEu == t.nonEu + NonEuPart(o)
            && t'.weightKg == t.weightKg + WeightPart(o) && t'.alerts == t.alerts + AlertPart(o)
            && t'.box5 == t.box5
  {
  }

  /** The items in EU member states, in row order. */
  function EuItemsOf(rows: seq<Row>, iso: map<string, string>): seq<string> {
    if rows == [] then []
    else EuItemsOf(rows[..|rows| - 1], iso) + EuPart(ExtractLine(rows[|rows| - 1], iso))
  }

  /** The items from outside the EU, in row order. */
  function NonEuItemsOf(rows: seq<Row>, iso: map<string, string>): seq<string> {
    if rows == [] then []
    else NonEuItemsOf(rows[..|rows| - 1], iso) + NonEuPart(ExtractLine(rows[|rows| - 1], iso))
  }

  /** The total weight of the items from outside the EU. */
  function NonEuWeightOf(rows: seq<Row>, iso: map<string, string>): real {
    if rows == [] then 0.0
    else NonEuWeightOf(rows[..|rows| - 1], iso) + WeightPart(ExtractLine(rows[|rows| - 1], iso))
  }

  /** The "Missing COO" alerts, in row order. */
  function AlertsOf(rows: seq<Row>, iso: map<string, string>): seq<string> {
    if rows == [] then []
    else AlertsOf(rows[..|rows| - 1], iso) + AlertPart(ExtractLine(rows[|rows| - 1], iso))
  }

  /** The union of what each row contributes. */
  function RowsUnion(rows: seq<Row>, part: Row -> set<string>): set<string> {
    if rows == [] then {}
    else RowsUnion(rows[..|rows| - 1], part) + part(rows[|rows| - 1])
  }

  /** The Box 5 values of the ITEM rows. */
  function Box5Values(rows: seq<Row>): set<string> {
    RowsUnion(rows, Box5Part)
  }

  /** The accumulators do not interfere: each holds exactly what the rows
      contribute to it, row by row. */
  lemma {:induction false} ScanByRow(rows: seq<Row>, iso: map<string, string>)
    ensures Scan(rows, iso).eu == EuItemsOf(rows, iso)
    ensures Scan(rows, iso).nonEu == NonEuItemsOf(rows, iso)
    ensures Scan(rows, iso).weightKg == NonEuWeightOf(rows, iso)
    ensures Scan(rows, iso).alerts == AlertsOf(rows, iso)
    ensures Scan(rows, iso).box5 == Box5Values(rows)
  {
    if rows != [] {
      var pre := rows[..|rows| - 1];
      ScanByRow(pre, iso);
      StepParts(Scan(pre, iso), rows[|rows| - 1], iso);
    }
  }

  /** Rows that are not ITEM rows are skipped: scanning only the ITEM rows
      gives the same accumulators. */
  function ItemRows(rows: seq<Row>): (r: seq<Row>)
    ensures forall row :: row in r ==> IsItemRow(row)
  {
    if rows == [] then []
    else ItemRows(rows[..|rows| - 1]) + (if IsItemRow(rows[|rows| - 1]) then [rows[|rows| - 1]] else [])
  }

  lemma {:induction false} ScanOnlyItemRows(rows: seq<Row>, iso: map<string, string>)
    ensures Scan(rows, iso) == Scan(ItemRows(rows), iso)
  {
    if rows != [] {
      var pre := rows[..|rows| - 1];
      var last := rows[|rows| - 1];
      ScanOnlyItemRows(pre, iso);
      assert Scan(rows, iso) == Step(Scan(pre, iso), last, iso);
      if IsItemRow(last) {
        var items := ItemRows(pre) + [last];
        assert ItemRows(rows) == items;
        assert items[..|items| - 1] == ItemRows(pre);
        assert Scan(items, iso) == Step(Scan(ItemRows(pre), iso), last, iso);
      } else {
        assert ItemRows(rows) == ItemRows(pre);
        assert Step(Scan(pre, iso), last, iso) == Scan(pre, iso);
      }
    }
  }

  /** The weight total is never negative. */
  lemma {:induction false} NonEuWeightNonNegative(rows: seq<Row>, iso: map<string, string>)
    ensures NonEuWeightOf(rows, iso) >= 0.0
  {
    if rows != [] {
      NonEuWeightNonNegative(rows[..|rows| - 1], iso);
      ExtractLineSpec(rows[|rows| - 1], iso);
    }
  }

  /** Weight is added only together with a non-EU item: with no such item the
      total is zero. */
  lemma {:induction false} NoNonEuItemNoWeight(rows: seq<Row>, iso: map<string, string>)
    requires NonEuItemsOf(rows, iso) == []
    ensures NonEuWeightOf(rows, iso) == 0.0
  {
    if rows != [] {
      NoNonEuItemNoWeight(rows[..|rows| - 1], iso);
    }
  }

  /** Every alert starts with the "Missing COO" prefix. */
  lemma {:induction false} AlertsArePrefixed(rows: seq<Row>, iso: map<string, string>)
    ensures forall a :: a in AlertsOf(rows, iso) ==> StartsWith(a, AlertPrefix)
  {
    if rows != [] {
      AlertsArePrefixed(rows[..|rows| - 1], iso);
    }
  }

  /** A value is a Box 5 reference exactly when some ITEM row holds it, stripped
      and not empty, in column 9. */
  lemma Box5ValuesSpec(rows: seq<Row>, x: string)
    ensures x in Box5Values(rows) <==> exists i :: 0 <= i < |rows| && x in Box5Part(rows[i])
  {
    if x in Box5Values(rows) {
      var i := UnionSource(rows, Box5Part, x);
    }
    if exists i :: 0 <= i < |rows| && x in Box5Part(rows[i]) {
      var i :| 0 <= i < |rows| && x in Box5Part(rows[i]);
      UnionCollected(rows, Box5Part, i, x);
    }
  }

  lemma {:induction false} UnionSource(rows: seq<Row>, part: Row -> set<string>, x: string) returns (i: nat)
    requires x in RowsUnion(rows, part)
    ensures i < |rows| && x in part(rows[i])
  {
    var pre := rows[..|rows| - 1];
    if x in RowsUnion(pre, part) {
      i := UnionSource(pre, part, x);
      assert rows[i] == pre[i];
    } else {
      i := |rows| - 1;
    }
  }

  lemma {:induction false} UnionCollected(rows: seq<Row>, part: Row -> set<string>, i: nat, x: string)
    requires i < |rows| && x in part(rows[i])
    ensures x in RowsUnion(rows, part)
  {
    var pre := rows[..|rows| - 1];
    if i < |pre| {
      assert pre[i] == rows[i];
      UnionCollected(pre, part, i, x);
    }
  }

  /** What a row contributes to Box 5: its column 9, stripped, when it is an
      ITEM row and that is not empty. */
  lemma Box5PartSpec(row: Row, x: string)
    ensures x in Box5Part(row) <==>
              IsItemRow(row) && Box5Column < |row| && x == Strip(row[Box5Column]) && x != ""
  {
  }

  /** ", ".join(sorted(values)) if values else "Unknown": the form of the
      Box 5 reference here and of both reference lines of the batch message. */
  function JoinedOrUnknown(values: set<string>): string {
    if values == {} then "Unknown" else Join(SortedSet(values), ", ")
  }

  /** The text is "Unknown" exactly when there is no value (as long as
      "Unknown" is not itself a value); otherwise it lists every value once,
      in ascending order, separated by ", ". */
  lemma JoinedOrUnknownSpec(values: set<string>)
    requires "Unknown" !in values
    ensures JoinedOrUnknown(values) == "Unknown" <==> values == {}
    ensures values != {} ==>
              exists listing :: StrictlySorted(listing) && (forall x :: x in listing <==> x in values)
                                && JoinedOrUnknown(values) == Join(listing, ", ")
  {
    if values != {} {
      var listing := SortedSet(values);
      assert listing[0] in values;
      JoinIsNotUnknown(listing);
    }
  }

  /** A ", "-join of values other than "Unknown" is not "Unknown". */
  lemma JoinIsNotUnknown(parts: seq<string>)
    requires |parts| >= 1 && "Unknown" !in parts
    ensures Join(parts, ", ") != "Unknown"
  {
    if |parts| > 1 {
      var s := Join(parts, ", ");
      assert s == parts[0] + ", " + Join(parts[1..], ", ");
      assert s[|parts[0]|] == ',';
      assert ',' !in "Unknown";
    } else {
      assert parts[0] in parts;
    }
  }

  /** The invoice reference as the source computes it: cell B1 stripped, the
      header fallback (which re-reads the very same cell), and "Unknown" for
      an empty result. */
  function InvoiceReference(rows: seq<Row>): string {
    if |rows| > 0 && |rows[0]| > 1 then
      var ref := Strip(rows[0][1]);
      var ref' := if ref == "" && Norm(rows[0][0]) in {"HEADER", "INVOICE", "INV"} then Strip(rows[0][1]) else ref;
      if ref' == "" then "Unknown" else ref'
    else "Unknown"
  }

  /** The header fallback never changes the reference: it is B1 stripped when
      the first row has two cells and that is not empty, and "Unknown" otherwise. */
  lemma InvoiceReferenceSpec(rows: seq<Row>)
    ensures |rows| > 0 && |rows[0]| > 1 && Strip(rows[0][1]) != "" ==> InvoiceReference(rows) == Strip(rows[0][1])
    ensures !(|rows| > 0 && |rows[0]| > 1 && Strip(rows[0][1]) != "") ==> InvoiceReference(rows) == "Unknown"
  {
  }

  /** round(x, 3) on an exact value: the nearest multiple of 0.001, a tie
      going to the even multiple, as Python rounds. */
  function Round3(x: real): (r: real)
    ensures x - 0.0005 <= r <= x + 0.0005
  {
    var scaled := x * 1000.0;
    var f := scaled.Floor;
    var n := if scaled - f as real > 0.5 || (scaled - f as real == 0.5 && f % 2 != 0) then f + 1 else f;
    n as real / 1000.0
  }

  /** A rounded value is a whole number of grams: rounding it again changes
      nothing, and rounding keeps a weight that is not negative so. */
  lemma Round3Spec(x: real)
    ensures Round3(Round3(x)) == Round3(x)
    ensures x >= 0.0 ==> Round3(x) >= 0.0
  {
    var scaled := x * 1000.0;
    var f := scaled.Floor;
    var n := if scaled - f as real > 0.5 || (scaled - f as real == 0.5 && f % 2 != 0) then f + 1 else f;
    assert Round3(x) == n as real / 1000.0;
    assert (n as real / 1000.0) * 1000.0 == n as real;
    assert (n as real).Floor == n;
    if x >= 0.0 {
      assert n as real >= scaled - 0.5;
    }
  }

  /** The result tuple of analyze_invoice. */
  datatype InvoiceAnalysis = InvoiceAnalysis(
    nonEuItems: seq<string>,
    euItems: seq<string>,
    nonEuWeightKg: real,
    box5Reference: string,
    invoiceReference: string,
    alerts: seq<string>)

  /** What analyze_invoice returns for a file. */
  function AnalysisOf(file: CsvFile, iso: map<string, string>): InvoiceAnalysis {
    match file
    case ReadFailed(reason) => InvoiceAnalysis([], [], 0.0, "Unknown", "Unknown", [ErrorPrefix + reason])
    case Rows(rows) =>
      var t := Scan(rows, iso);
      InvoiceAnalysis(t.nonEu, t.eu, Round3(t.weightKg), JoinedOrUnknown(t.box5), InvoiceReference(rows), t.alerts)
  }

  /** Visiting one more row is one more Step. */
  lemma ScanExtend(rows: seq<Row>, i: nat, iso: map<string, string>)
    requires i < |rows|
    ensures Scan(rows[..i + 1], iso) == Step(Scan(rows[..i], iso), rows[i], iso)
  {
    assert rows[..i + 1][..i] == rows[..i];
  }

  /** The body of the row loop of analyze_invoice: what one row adds to the
      five accumulators. */
  method AddRow(acc: Tally, row: Row, iso: map<string, string>) returns (acc': Tally)
    ensures acc' == Step(acc, row, iso)
  {
    acc' := acc;
    if row == [] || Norm(row[0]) != "ITEM" {
      return;
    }
    var catalog := Cell(row, CatalogColumn, "Unknown");
    var description := Cell(row, DescriptionColumn, "Unknown");
    acc' := AddBox5(acc', row);
    var field := Cell(row, CooColumn, "");
    var found := Search(field);
    StepOfItem(acc, row, iso);
    acc' := AddOutcome(acc', row, iso, catalog, description, field, found);
  }

  /** The Box 5 part of the loop body. */
  method AddBox5(acc: Tally, row: Row) returns (acc': Tally)
    ensures acc' == acc.(box5 := acc.box5 + Box5Of(row))
  {
    acc' := acc;
    if Box5Column < |row| && row[Box5Column] != "" {
      var rawBox5 := Strip(row[Box5Column]);
      if rawBox5 != "" {
        acc' := acc'.(box5 := acc'.box5 + {rawBox5});
      }
    }
  }

  lemma StepOfItem(acc: Tally, row: Row, iso: map<string, string>)
    requires IsItemRow(row)
    ensures Step(acc, row, iso)
            == Record(acc.(box5 := acc.box5 + Box5Of(row)),
                      Outcome(CooField(row), Search(CooField(row)), LineNumber(row), Catalog(row), Description(row), iso))
  {
  }

  /** The COO / weight part of the loop body, once the field has been searched. */
  method AddOutcome(acc: Tally, row: Row, iso: map<string, string>, catalog: string, description: string,
                    field: string, found: Option<CooMatch>)
    returns (acc': Tally)
    requires found.Some? ==> IsMatch(field, found.value)
    ensures acc' == Record(acc, Outcome(field, found, LineNumber(row), catalog, description, iso))
  {
    acc' := acc;
    if found.None? {
      if '/' in field {
        var lineNumber := Cell(row, LineColumn, "Unknown");
        var weightInfo := NormalizedWeightText(field);
        var alert := AlertText(lineNumber, catalog, description, weightInfo);
        assert Outcome(field, found, LineNumber(row), catalog, description, iso) == MissingCoo(alert);
        acc' := acc'.(alerts := acc'.alerts + [alert]);
      }
      return;
    }
    var m := found.value;
    var coo := CodeOf(field, m);
    var weightValue := WeightKg(WeightTextOf(field, m), UnitOf(field, m));
    var itemText := ItemText(catalog, description, InvoiceCountryName(coo, iso));
    assert Outcome(field, found, LineNumber(row), catalog, description, iso) == Classified(itemText, IsEu(coo), weightValue);
    if IsEu(coo) {
      acc' := acc'.(eu := acc'.eu + [itemText]);
    } else {
      acc' := acc'.(nonEu := acc'.nonEu + [itemText], weightKg := acc'.weightKg + weightValue);
    }
  }

  /** The weight text of an alert, computed as the loop body does. */
  method NormalizedWeightText(field: string) returns (weightInfo: string)
    ensures weightInfo == NormalizeWeight(field)
  {
    weightInfo := field;
    if '/' in weightInfo {
      weightInfo := Strip(AfterLast(weightInfo, '/'));
    }
    weightInfo := Collapse(weightInfo);
  }

  /** The row loop of analyze_invoice. */
  method ScanRows(lines: seq<Row>, iso: map<string, string>) returns (acc: Tally)
    ensures acc == Scan(lines, iso)
  {
    acc := EmptyTally;
    var i := 0;
    while i < |lines|
      invariant 0 <= i <= |lines|
      invariant acc == Scan(lines[..i], iso)
    {
      ScanExtend(lines, i, iso);
      ghost var before := acc;
      acc := AddRow(acc, lines[i], iso);
      assert acc == Step(before, lines[i], iso);
      assert acc == Scan(lines[..i + 1], iso);
      i := i + 1;
    }
    assert lines[..|lines|] == lines;
  }

  /** The invoice reference of analyze_invoice, read from cell B1. */
  method ReadInvoiceReference(lines: seq<Row>) returns (invoiceReference: string)
    ensures invoiceReference == InvoiceReference(lines)
  {
    invoiceReference := "Unknown";
    if |lines| > 0 && |lines[0]| > 1 {
      invoiceReference := Strip(lines[0][1]);
      if invoiceReference == "" {
        var firstCell := Norm(lines[0][0]);
        if firstCell in {"HEADER", "INVOICE", "INV"} {
          invoiceReference := Strip(lines[0][1]);
        }
      }
    }
    if invoiceReference == "" {
      invoiceReference := "Unknown";
    }
  }

  /** analyze_invoice */
  method AnalyzeInvoice(file: CsvFile, iso: map<string, string>) returns (r: InvoiceAnalysis)
    ensures r == AnalysisOf(file, iso)
  {
    if file.ReadFailed? {
      return InvoiceAnalysis([], [], 0.0, "Unknown", "Unknown", [ErrorPrefix + file.reason]);
    }
    var lines := file.rows;
    var invoiceReference := ReadInvoiceReference(lines);
    var acc := ScanRows(lines, iso);
    var box5Reference := if acc.box5 != {} then Join(SortedSet(acc.box5), ", ") else "Unknown";
    return InvoiceAnalysis(acc.nonEu, acc.eu, Round3(acc.weightKg), box5Reference, invoiceReference, acc.alerts);
  }
}
