/**
 * How the batch step reads a "Missing COO" alert back: the alert prefix is
 * removed, the text is cut at its line breaks, each piece is stripped and
 * recognised by its label, and the four fields are put together again as
 * the one-line summary "Line <n> – <product>, <desc>, <weight>".
 *
 * Entries that start with "Error during analysis:" are not alerts at all;
 * they go to the per-file issues list.
 */
module Alerts {
  import opened Text
  import opened Invoice

  /** What the batch step looks for at the start of an entry to route it to the issues. */
  const RoutingPrefix: string := "Error during analysis:"

  predicate IsErrorEntry(entry: string) {
    StartsWith(entry, RoutingPrefix)
  }

  /** An error entry of analyze_invoice is routed to the issues; an alert never is. */
  lemma RoutingSpec(reason: string, line: string, catalog: string, description: string, weight: string)
    ensures IsErrorEntry(ErrorPrefix + reason)
    ensures !IsErrorEntry(AlertText(line, catalog, description, weight))
  {
    assert (ErrorPrefix + reason)[..|RoutingPrefix|] == RoutingPrefix;
    var a := AlertText(line, catalog, description, weight);
    assert a[0] == AlertPrefix[0];
  }

  /** The four fields the aggregator fills in while reading an alert. */
  datatype AlertFields = AlertFields(line: string, product: string, desc: string, weight: string)

  const NoFields: AlertFields := AlertFields("", "", "", "")

  /** p.split(sep, 1)[1].strip(), and "" where p has no separator. */
  function ValueAfter(p: string, sep: char): string {
    match AfterFirst(p, sep)
    case Some(v) => Strip(v)
    case None => ""
  }

  /** A piece labelled "Product:", "Desc:" or "Weight:" (in any case) sets
      that field; any other piece changes nothing. */
  function ReadLabelled(f: AlertFields, p: string): AlertFields {
    var up := Upper(p);
    if StartsWith(up, "PRODUCT:") then f.(product := ValueAfter(p, ':'))
    else if StartsWith(up, "DESC:") then f.(desc := ValueAfter(p, ':'))
    else if StartsWith(up, "WEIGHT:") then f.(weight := ValueAfter(p, ':'))
    else f
  }

  /** One stripped piece as main.py reads it: a piece starting with "LINE"
      sets the line number to what follows its first space, and fails
      (IndexError) when it has no space. */
  function ReadPartAsWritten(f: AlertFields, p: string): Option<AlertFields> {
    if StartsWith(Upper(p), "LINE") then
      if ' ' in p then Some(f.(line := ValueAfter(p, ' '))) else None
    else Some(ReadLabelled(f, p))
  }

  /** One stripped piece, with a bare "Line" read as an empty line number. */
  function ReadPart(f: AlertFields, p: string): AlertFields {
    if StartsWith(Upper(p), "LINE") then f.(line := ValueAfter(p, ' '))
    else ReadLabelled(f, p)
  }

  /** The pieces read in order, as written: the first failure ends the reading. */
  function ReadPartsAsWritten(parts: seq<string>): Option<AlertFields> {
    if parts == [] then Some(NoFields)
    else
      match ReadPartsAsWritten(parts[..|parts| - 1])
      case None => None
      case Some(f) => ReadPartAsWritten(f, parts[|parts| - 1])
  }

  /** The pieces read in order; a later piece overrides an earlier one. */
  function ReadParts(parts: seq<string>): AlertFields {
    if parts == [] then NoFields
    else ReadPart(ReadParts(parts[..|parts| - 1]), parts[|parts| - 1])
  }

  function StripAll(ps: seq<string>): (r: seq<string>)
    ensures |r| == |ps| && forall i :: 0 <= i < |ps| ==> r[i] == Strip(ps[i])
  {
    seq(|ps|, i requires 0 <= i < |ps| => Strip(ps[i]))
  }

  /** The stripped lines of an entry once every alert prefix is removed from it. */
  function AlertParts(entry: string): seq<string> {
    StripAll(Split(ReplaceAll(entry, AlertPrefix, ""), '\n'))
  }

  /** The one-line summary; the weight is normalised once more. */
  function SummaryLine(f: AlertFields): string {
    "Line " + f.line + " \U{2013} " + f.product + ", " + f.desc + ", " + NormalizeWeight(f.weight)
  }

  /** The summary of an alert as main.py computes it: None where it raises. */
  function SummaryAsWritten(entry: string): Option<string> {
    match ReadPartsAsWritten(AlertParts(entry))
    case None => None
    case Some(f) => Some(SummaryLine(f))
  }

  /** The summary of an alert; the rest of the model uses this one. */
  function Summary(entry: string): string {
    SummaryLine(ReadParts(AlertParts(entry)))
  }

  // ---------------------------------------------------------------------
  // Reading back an alert
  // ---------------------------------------------------------------------

  /** A field that survives the round trip: stripped, on one line, and
      without the warning sign that starts the alert prefix. */
  predicate PlainField(s: string) {
    IsStripped(s) && '\n' !in s && '\U{26A0}' !in s
  }

  /** A weight text that normalising leaves alone. */
  predicate PlainWeight(w: string) {
    PlainField(w) && '/' !in w && Collapse(w) == w
  }

  /** "Line " + l for a non-empty stripped l is already stripped. */
  lemma LineStripped(l: string)
    requires IsStripped(l) && l != ""
    ensures Strip("Line " + l) == "Line " + l
  {
    assert IsStripped("Line " + l);
    StripOfStripped("Line " + l);
  }

  lemma LineShape(l: string)
    ensures ' ' in "Line " + l && StartsWith("Line " + l, "Line")
  {
    var p := "Line " + l;
    assert p[4] == ' ' && p[..4] == "Line";
  }

  lemma LineBare()
    ensures Strip("Line ") == "Line"
    ensures ' ' !in "Line" && AfterFirst("Line", ' ') == None && StartsWith("Line", "Line")
  {
    assert "Line " == "" + "Line" + " ";
    StripAround("", "Line", " ");
  }

  lemma LineValue(l: string)
    ensures AfterFirst("Line " + l, ' ') == Some(l)
  {
    assert "Line " + l == "Line" + [' '] + l;
    AfterFirstAt("Line", l, ' ');
  }

  lemma LineUpper(p: string)
    requires StartsWith(p, "Line")
    ensures StartsWith(Upper(p), "LINE")
  {
    UpperPrefix(p, "Line");
    assert Upper("Line") == "LINE";
  }

  /** The "Line" piece: it is recognised as the line piece, its value is the
      line number, and it has a space (which main.py needs) exactly when the
      line number is non-empty. */
  lemma LinePart(l: string)
    requires IsStripped(l)
    ensures StartsWith(Upper(Strip("Line " + l)), "LINE")
    ensures ValueAfter(Strip("Line " + l), ' ') == l
    ensures ' ' in Strip("Line " + l) <==> l != ""
  {
    if l == "" {
      LineBare();
      assert "Line " + l == "Line ";
      LineUpper("Line");
    } else {
      LineStripped(l);
      LineShape(l);
      LineValue(l);
      StripOfStripped(l);
      LineUpper("Line " + l);
    }
  }

  lemma LabelBare(key: string)
    requires key != [] && NoSpace(key)
    ensures Strip(" " + key + ": ") == key + ":"
  {
    var head := key + ":";
    assert IsStripped(head) && head != [];
    assert " " + key + ": " == " " + head + " ";
    StripAround(" ", head, " ");
  }

  lemma LabelStripped(key: string, v: string)
    requires key != [] && NoSpace(key) && IsStripped(v) && v != ""
    ensures Strip(" " + key + ": " + v) == key + ": " + v
  {
    var m := key + ": " + v;
    assert m[0] == key[0] && m[|m| - 1] == v[|v| - 1];
    assert " " + key + ": " + v == " " + m + "";
    StripAround(" ", m, "");
  }

  lemma LabelValue(key: string, v: string)
    requires ':' !in key
    ensures AfterFirst(key + ": " + v, ':') == Some(" " + v)
    ensures AfterFirst(key + ":", ':') == Some("")
  {
    assert key + ": " + v == key + [':'] + (" " + v);
    AfterFirstAt(key, " " + v, ':');
    assert key + ":" == key + [':'] + "";
    AfterFirstAt(key, "", ':');
  }

  lemma StripLeadingSpace(v: string)
    requires IsStripped(v)
    ensures Strip(" " + v) == v
  {
    if v == "" {
      StripOfSpaces(" ");
    } else {
      assert " " + v == " " + v + "";
      StripAround(" ", v, "");
    }
  }

  lemma LabelShape(key: string, v: string)
    ensures StartsWith(key + ": " + v, key + ":") && StartsWith(key + ":", key + ":")
  {
    assert (key + ": " + v)[..|key + ":"|] == key + ":";
  }

  /** A labelled piece " <key>: <v>": once stripped it starts with "<key>:"
      and its value is v. */
  lemma LabelledPart(key: string, v: string)
    requires key != [] && NoSpace(key) && ':' !in key && IsStripped(v)
    ensures StartsWith(Strip(" " + key + ": " + v), key + ":")
    ensures ValueAfter(Strip(" " + key + ": " + v), ':') == v
  {
    LabelValue(key, v);
    LabelShape(key, v);
    if v == "" {
      LabelBare(key);
      assert " " + key + ": " + v == " " + key + ": ";
      StripOfStripped("");
    } else {
      LabelStripped(key, v);
      StripLeadingSpace(v);
    }
  }

  /** No line of an alert holds a character that none of its fields holds
      and none of the labels holds. */
  lemma AlertLinesWithout(l: string, c: string, d: string, w: string, x: char)
    requires x !in l && x !in c && x !in d && x !in w && x !in "Line " && x !in " Product: "
    requires x !in " Desc: " && x !in " Weight: "
    ensures forall k :: 0 <= k < |AlertLines(l, c, d, w)| ==> x !in AlertLines(l, c, d, w)[k]
  {
  }

  /** Removing the prefix leaves the four lines, when no field holds the warning sign. */
  lemma AlertCore(l: string, c: string, d: string, w: string)
    requires '\U{26A0}' !in l && '\U{26A0}' !in c && '\U{26A0}' !in d && '\U{26A0}' !in w
    ensures ReplaceAll(AlertText(l, c, d, w), AlertPrefix, "") == Join(AlertLines(l, c, d, w), "\n")
  {
    var body := Join(AlertLines(l, c, d, w), "\n");
    ReplaceAtStart(body, AlertPrefix, "");
    AlertLinesWithout(l, c, d, w, '\U{26A0}');
    JoinWithout(AlertLines(l, c, d, w), "\n", '\U{26A0}');
    ReplaceAbsent(body, AlertPrefix, "");
  }

  /** The four stripped pieces of an alert whose fields are on one line. */
  lemma PartsOfAlert(l: string, c: string, d: string, w: string)
    requires PlainField(l) && PlainField(c) && PlainField(d) && PlainField(w)
    ensures var parts := AlertParts(AlertText(l, c, d, w));
            && |parts| == 4
            && parts[0] == Strip("Line " + l) && parts[1] == Strip(" Product: " + c)
            && parts[2] == Strip(" Desc: " + d) && parts[3] == Strip(" Weight: " + w)
  {
    var lines := AlertLines(l, c, d, w);
    AlertCore(l, c, d, w);
    AlertLinesWithout(l, c, d, w, '\n');
    SplitOfJoin(lines, '\n');
  }

  /** A piece that starts with a label starts, upper-cased, with the label upper-cased. */
  lemma LabelUpper(p: string, key: string, upperKey: string)
    requires StartsWith(p, key) && Upper(key) == upperKey && key != []
    ensures StartsWith(Upper(p), upperKey) && Upper(p)[0] == upperKey[0]
  {
    UpperPrefix(p, key);
  }

  /** Texts that differ in their first character do not start one with the other. */
  lemma NotStartsWith(u: string, x: string)
    requires u != [] && x != [] && u[0] != x[0]
    ensures !StartsWith(u, x)
  {
  }

  /** The three labels: what they look like upper-cased, and that they are
      words without a colon. */
  lemma Labels()
    ensures Upper("Product:") == "PRODUCT:" && Upper("Desc:") == "DESC:" && Upper("Weight:") == "WEIGHT:"
    ensures NoSpace("Product") && NoSpace("Desc") && NoSpace("Weight")
    ensures ':' !in "Product" && ':' !in "Desc" && ':' !in "Weight"
  {
  }

  lemma LabelSplit(lead: string, key: string, v: string)
    requires lead == " " + key + ": "
    ensures lead + v == " " + key + ": " + v
  {
  }

  /** A stripped labelled piece: recognised by its upper-cased label, with value v. */
  lemma LabelledPiece(lead: string, key: string, upperKey: string, v: string)
    requires lead == " " + key + ": " && key != [] && NoSpace(key) && ':' !in key
    requires IsStripped(v) && Upper(key + ":") == upperKey
    ensures StartsWith(Upper(Strip(lead + v)), upperKey)
    ensures ValueAfter(Strip(lead + v), ':') == v
  {
    LabelSplit(lead, key, v);
    LabelledPart(key, v);
    LabelUpper(Strip(lead + v), key + ":", upperKey);
  }

  /** The Product, Desc and Weight pieces of an alert, each recognised by its label. */
  lemma LabelledPieces(c: string, d: string, w: string)
    requires IsStripped(c) && IsStripped(d) && IsStripped(w)
    ensures StartsWith(Upper(Strip(" Product: " + c)), "PRODUCT:") && ValueAfter(Strip(" Product: " + c), ':') == c
    ensures StartsWith(Upper(Strip(" Desc: " + d)), "DESC:") && ValueAfter(Strip(" Desc: " + d), ':') == d
    ensures StartsWith(Upper(Strip(" Weight: " + w)), "WEIGHT:") && ValueAfter(Strip(" Weight: " + w), ':') == w
  {
    Labels();
    LabelledPiece(" Product: ", "Product", "PRODUCT:", c);
    LabelledPiece(" Desc: ", "Desc", "DESC:", d);
    LabelledPiece(" Weight: ", "Weight", "WEIGHT:", w);
  }

  /** Reading a line piece. */
  lemma ReadLine(f: AlertFields, p: string, l: string)
    requires StartsWith(Upper(p), "LINE") && ValueAfter(p, ' ') == l && (' ' in p <==> l != "")
    ensures ReadPart(f, p) == f.(line := l)
    ensures ReadPartAsWritten(f, p) == if l == "" then None else Some(f.(line := l))
  {
  }

  /** Reading a product piece. */
  lemma ReadProduct(f: AlertFields, p: string, c: string)
    requires StartsWith(Upper(p), "PRODUCT:") && ValueAfter(p, ':') == c
    ensures ReadPart(f, p) == f.(product := c)
    ensures ReadPartAsWritten(f, p) == Some(f.(product := c))
  {
    NotStartsWith(Upper(p), "LINE");
  }

  /** Reading a description piece. */
  lemma ReadDesc(f: AlertFields, p: string, d: string)
    requires StartsWith(Upper(p), "DESC:") && ValueAfter(p, ':') == d
    ensures ReadPart(f, p) == f.(desc := d)
    ensures ReadPartAsWritten(f, p) == Some(f.(desc := d))
  {
    NotStartsWith(Upper(p), "LINE");
    NotStartsWith(Upper(p), "PRODUCT:");
  }

  /** Reading a weight piece. */
  lemma ReadWeight(f: AlertFields, p: string, w: string)
    requires StartsWith(Upper(p), "WEIGHT:") && ValueAfter(p, ':') == w
    ensures ReadPart(f, p) == f.(weight := w)
    ensures ReadPartAsWritten(f, p) == Some(f.(weight := w))
  {
    NotStartsWith(Upper(p), "LINE");
    NotStartsWith(Upper(p), "PRODUCT:");
    NotStartsWith(Upper(p), "DESC:");
  }

  /** Reading four pieces is reading them one after the other. */
  lemma ReadFour(parts: seq<string>)
    requires |parts| == 4
    ensures ReadParts(parts)
            == ReadPart(ReadPart(ReadPart(ReadPart(NoFields, parts[0]), parts[1]), parts[2]), parts[3])
  {
    assert parts[..0] == [] && parts[..4] == parts;
    ReadStep(parts, 0);
    ReadStep(parts, 1);
    ReadStep(parts, 2);
    ReadStep(parts, 3);
  }

  /** The same for the reading as written, which may stop early. */
  lemma ReadFourAsWritten(parts: seq<string>)
    requires |parts| == 4
    ensures ReadPartsAsWritten(parts)
            == match ReadPartAsWritten(NoFields, parts[0])
               case None => None
               case Some(f1) =>
                 match ReadPartAsWritten(f1, parts[1])
                 case None => None
                 case Some(f2) =>
                   match ReadPartAsWritten(f2, parts[2])
                   case None => None
                   case Some(f3) => ReadPartAsWritten(f3, parts[3])
  {
    assert parts[..0] == [] && parts[..4] == parts;
    ReadStepAsWritten(parts, 0);
    ReadStepAsWritten(parts, 1);
    ReadStepAsWritten(parts, 2);
    ReadStepAsWritten(parts, 3);
  }

  /** Reading one more piece. */
  lemma ReadStep(parts: seq<string>, n: nat)
    requires n < |parts|
    ensures ReadParts(parts[..n + 1]) == ReadPart(ReadParts(parts[..n]), parts[n])
  {
    assert parts[..n + 1][..n] == parts[..n];
  }

  lemma ReadStepAsWritten(parts: seq<string>, n: nat)
    requires n < |parts|
    ensures ReadPartsAsWritten(parts[..n + 1])
            == match ReadPartsAsWritten(parts[..n])
               case None => None
               case Some(f) => ReadPartAsWritten(f, parts[n])
  {
    assert parts[..n + 1][..n] == parts[..n];
  }

  /** Reading the four pieces gives back the four fields. */
  lemma ReadAlertPieces(l: string, c: string, d: string, w: string)
    requires PlainField(l) && PlainField(c) && PlainField(d) && PlainField(w)
    ensures ReadParts(AlertParts(AlertText(l, c, d, w))) == AlertFields(l, c, d, w)
    ensures ReadPartsAsWritten(AlertParts(AlertText(l, c, d, w)))
            == if l == "" then None else Some(AlertFields(l, c, d, w))
  {
    PartsOfAlert(l, c, d, w);
    var parts := AlertParts(AlertText(l, c, d, w));
    ReadFour(parts);
    ReadFourAsWritten(parts);
    LinePart(l);
    LabelledPieces(c, d, w);
    var f1 := NoFields.(line := l);
    var f2 := f1.(product := c);
    var f3 := f2.(desc := d);
    ReadLine(NoFields, parts[0], l);
    ReadProduct(f1, parts[1], c);
    ReadDesc(f2, parts[2], d);
    ReadWeight(f3, parts[3], w);
  }

  /** Round trip: the summary of an alert repeats its line number, product,
      description and weight text unchanged. */
  lemma {:induction false} AlertRoundTrip(l: string, c: string, d: string, w: string)
    requires PlainField(l) && PlainField(c) && PlainField(d) && PlainWeight(w)
    ensures Summary(AlertText(l, c, d, w)) == "Line " + l + " \U{2013} " + c + ", " + d + ", " + w
  {
    ReadAlertPieces(l, c, d, w);
    assert WeightTail(w) == w;
  }

  /** As written, the summary is the same for a non-empty line number, and
      the aggregation raises for an empty one. */
  lemma {:induction false} AlertRoundTripAsWritten(l: string, c: string, d: string, w: string)
    requires PlainField(l) && PlainField(c) && PlainField(d) && PlainWeight(w)
    ensures l != "" ==> SummaryAsWritten(AlertText(l, c, d, w)) == Some(Summary(AlertText(l, c, d, w)))
    ensures l == "" ==> SummaryAsWritten(AlertText(l, c, d, w)) == None
  {
    ReadAlertPieces(l, c, d, w);
  }

  /** The fields of the sample alert below. */
  lemma SampleFields()
    ensures PlainField("") && PlainField("C-1") && PlainField("Bolt") && PlainWeight("3KG")
  {
    assert WordLength("3KG") == 3;
    assert "3KG"[..3] == "3KG" && "3KG"[3..] == [];
    assert Words("3KG"[3..]) == [];
    assert Words("3KG") == ["3KG"];
  }

  /** A concrete alert the aggregation cannot read: an ITEM row whose line
      cell holds only a space. */
  lemma BlankLineNumberAborts()
    ensures SummaryAsWritten(AlertText("", "C-1", "Bolt", "3KG")) == None
    ensures Summary(AlertText("", "C-1", "Bolt", "3KG")) == "Line " + "" + " \U{2013} " + "C-1" + ", " + "Bolt" + ", " + "3KG"
  {
    SampleFields();
    AlertRoundTripAsWritten("", "C-1", "Bolt", "3KG");
    AlertRoundTrip("", "C-1", "Bolt", "3KG");
  }

  // ---------------------------------------------------------------------
  // Alerts produced from a row
  // ---------------------------------------------------------------------

  /** A cell on one line without the warning sign. */
  predicate PlainCell(row: Row, k: nat) {
    k < |row| ==> '\n' !in row[k] && '\U{26A0}' !in row[k]
  }

  lemma CellIsPlain(row: Row, k: nat, default: string)
    requires PlainCell(row, k) && PlainField(default)
    ensures PlainField(Cell(row, k, default))
  {
    if k < |row| && row[k] != "" {
      StripSpec(row[k]);
      StripWithout(row[k], '\n');
      StripWithout(row[k], '\U{26A0}');
    }
  }

  lemma NormalizedWeightIsPlain(t: string)
    requires '\U{26A0}' !in t
    ensures PlainWeight(NormalizeWeight(t))
  {
    var tail := WeightTail(t);
    if '/' in t {
      StripWithout(AfterLast(t, '/'), '\U{26A0}');
    }
    CollapseWithout(tail, '\U{26A0}');
    CollapseDropsSpace(tail, '\n');
    CollapseIdempotent(tail);
  }

  /** The fields of the alert of a row whose cells are plain. */
  lemma RowFieldsArePlain(row: Row)
    requires PlainCell(row, LineColumn) && PlainCell(row, CatalogColumn)
    requires PlainCell(row, DescriptionColumn) && PlainCell(row, CooColumn)
    ensures PlainField(LineNumber(row)) && PlainField(Catalog(row)) && PlainField(Description(row))
    ensures PlainWeight(NormalizeWeight(CooField(row)))
  {
    assert PlainField("Unknown") && PlainField("");
    CellIsPlain(row, LineColumn, "Unknown");
    CellIsPlain(row, CatalogColumn, "Unknown");
    CellIsPlain(row, DescriptionColumn, "Unknown");
    CellIsPlain(row, CooColumn, "");
    NormalizedWeightIsPlain(CooField(row));
  }

  lemma MissingCooAlert(row: Row, iso: map<string, string>)
    requires ExtractLine(row, iso).MissingCoo?
    ensures ExtractLine(row, iso).alert
            == AlertText(LineNumber(row), Catalog(row), Description(row), NormalizeWeight(CooField(row)))
  {
    ExtractLineSpec(row, iso);
  }

  /** The alert an ITEM row produces reads back as its line number, catalog
      number, description and normalised weight text, as long as those cells
      are on one line and hold no warning sign; main.py itself fails on it
      exactly when the line number is empty. */
  lemma MissingCooSummary(row: Row, iso: map<string, string>)
    requires ExtractLine(row, iso).MissingCoo?
    requires PlainCell(row, LineColumn) && PlainCell(row, CatalogColumn)
    requires PlainCell(row, DescriptionColumn) && PlainCell(row, CooColumn)
    ensures Summary(ExtractLine(row, iso).alert)
            == "Line " + LineNumber(row) + " \U{2013} " + Catalog(row) + ", " + Description(row)
               + ", " + NormalizeWeight(CooField(row))
    ensures SummaryAsWritten(ExtractLine(row, iso).alert).None? <==> LineNumber(row) == ""
  {
    MissingCooAlert(row, iso);
    RowFieldsArePlain(row);
    var l, c, d, w := LineNumber(row), Catalog(row), Description(row), NormalizeWeight(CooField(row));
    AlertRoundTrip(l, c, d, w);
    AlertRoundTripAsWritten(l, c, d, w);
  }

  // ---------------------------------------------------------------------
  // The re-parse loop of select_files
  // ---------------------------------------------------------------------

  /** The read of one alert: the pieces loop, then the weight normalisation. */
  method SummarizeAlert(entry: string) returns (summary: string)
    ensures summary == Summary(entry)
  {
    var core := ReplaceAll(entry, AlertPrefix, "");
    var parts := StripAll(Split(core, '\n'));
    var line, product, desc, weightText := "", "", "", "";
    var i := 0;
    while i < |parts|
      invariant 0 <= i <= |parts|
      invariant AlertFields(line, product, desc, weightText) == ReadParts(parts[..i])
    {
      var p := parts[i];
      var up := Upper(p);
      ghost var before := AlertFields(line, product, desc, weightText);
      ReadStep(parts, i);
      if StartsWith(up, "LINE") {
        line := ValueAfter(p, ' ');
      } else if StartsWith(up, "PRODUCT:") {
        product := ValueAfter(p, ':');
      } else if StartsWith(up, "DESC:") {
        desc := ValueAfter(p, ':');
      } else if StartsWith(up, "WEIGHT:") {
        weightText := ValueAfter(p, ':');
      }
      assert AlertFields(line, product, desc, weightText) == ReadPart(before, p);
      i := i + 1;
    }
    assert parts[..|parts|] == parts;
    weightText := NormalizedWeightText(weightText);
    summary := "Line " + line + " \U{2013} " + product + ", " + desc + ", " + weightText;
  }
}
