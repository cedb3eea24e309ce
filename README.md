# SmartDocs Insight: invoice classification core in Dafny

This project models the invoice-processing core of SmartDocs Insight
(`smartdocs-insight/main.py`). The tool reads exported invoice CSV files.
It classifies every `ITEM` line by its country of origin, taken from a
`/ CC / weight unit` field, into EU and non-EU items. It adds up the weight
of the non-EU items. It collects the Box 5 (purchase order) and invoice
references. It raises a "Missing COO" alert for a line whose field cannot
be read. Over a batch of files, it then builds the e-mail body that
requests the certificates of origin.

The modules follow the program:

- `Text`: the parts of Python's `str` that the code uses. These are
  `strip`, `split()`, `split(sep)`, `join`, `replace`, `startswith`, ASCII
  `upper` and the decimal rendering of an `int`.
- `Ordering`: Python's `str` order, `sorted(set(...))`, and the
  order-preserving de-duplication done with a `seen` set.
- `Country`: `EU_CODES`, `get_country_name`, and the override table of
  `analyze_invoice`.
- `CooPattern`: the COO/weight regular expression, written as a matcher.
  It is proved to return exactly the leftmost match. The module also holds
  the unit conversion and `float()` on the weight numeral.
- `Invoice`: `analyze_invoice`.
  - Functions give the meaning of one row, of the whole row loop and of
    the result tuple.
  - The methods `AddRow`, `ScanRows` and `AnalyzeInvoice` are the loop and
    its body, proved equal to those functions.
- `Metadata`: `extract_csv_metadata`, the header cells and the PO/SO pairs.
  The method `CollectPairs` is the loop with its `seen` set.
- `Alerts`: how `select_files` reads an alert back into a one-line
  summary, and how it routes "Error during analysis" entries to the file
  issues.
- `Batch`: the file loop of `select_files` (`Aggregate`), the running lists
  and weight, and the message text (`ComposeMessage`).
- `Signature`: `_sig` and the CSV/PDF signature check that runs before the
  batch.

Inputs the code takes from the outside world are parameters:

- the rows of each CSV file, or the reason it could not be read;
- the ISO 3166 name table `iso`;
- the file base names;
- the text form of a float (`render`);
- the support e-mail address and phone number.

## Model

| member | source | states |
|---|---|---|
| Country.EuCodesAreUpper | smartdocs-insight/main.py:96-124 | every EU code is two upper-case letters, so a lower-case or malformed code is never EU |
| Country.NonMembers | smartdocs-insight/main.py:96-124 | GB, UK, CH, NO, IS and LI are not EU codes |
| Country.CountryName | smartdocs-insight/main.py:132-149 | "KR" in any case gives "Republic of Korea"; otherwise the ISO name of the upper-cased code; failing that, the code as given |
| Country.InvoiceCountryNameSpec | smartdocs-insight/main.py:260-266 | the KR override agrees with get_country_name; every code other than MX, MY, PL and KR gets get_country_name's name; a code unknown to the ISO table is named by itself |
| Invoice.NormItemSpec | smartdocs-insight/main.py:174-176 | `_norm(c) == "ITEM"` iff c is whitespace, then byte-order marks, then "item" in any case, then whitespace |
| Invoice.MarkBeforeSpaceIsNotItem | smartdocs-insight/main.py:174-176 | a byte-order mark followed by a space hides the word: `_norm` strips whitespace before it drops marks |
| Invoice.CellDefaults | smartdocs-insight/main.py:215-216 | a guarded cell read gives the default for a missing or empty cell, "" for a whitespace-only cell, and a stripped text otherwise |
| CooPattern.UnitEndSpec | smartdocs-insight/main.py:186-189 | the unit alternation, tried in the pattern's order, ends at e iff the text there is one of KG, KGS, G, GRAM, GRAMS (any case) followed by a word boundary |
| CooPattern.MatchAtSound | smartdocs-insight/main.py:186-189 | whatever the anchored matcher returns is a match of the pattern at that position |
| CooPattern.MatchAtComplete | smartdocs-insight/main.py:186-189 | every match of the pattern is the one the anchored matcher returns at its position |
| CooPattern.Search | smartdocs-insight/main.py:226 | re.search: None iff the pattern matches nowhere; otherwise a match that starts before every other match |
| CooPattern.LeftmostIsFound | smartdocs-insight/main.py:226 | the match that starts first is the one the search returns |
| CooPattern.CodeOf | smartdocs-insight/main.py:248 | the country code of a match is two upper-case ASCII letters |
| CooPattern.UnitOf | smartdocs-insight/main.py:250 | the unit of a match is one of KG, KGS, G, GRAM, GRAMS |
| CooPattern.WeightKg | smartdocs-insight/main.py:249-258 | the weight is never negative |
| CooPattern.UnitConversion | smartdocs-insight/main.py:249-258 | for a numeral float() accepts, G/GRAM/GRAMS weigh the value divided by 1000, and KG/KGS weigh the value itself |
| CooPattern.MalformedNumeralWeighsNothing | smartdocs-insight/main.py:253-258 | "1.2.3", "." and ",," are rejected by float(), so they weigh 0 |
| CooPattern.PointValue | smartdocs-insight/main.py:254 | a numeral "a.b" has the value a + b / 10^len(b) |
| CooPattern.GramsExample | smartdocs-insight/main.py:249-258 | "2500" grams weigh 2.5 kg |
| CooPattern.SeparatorExample | smartdocs-insight/main.py:249-258 | the thousands separator is dropped: "1,234.5" KGS weighs 1234.5 kg |
| Invoice.NormalizeWeight | smartdocs-insight/main.py:232-236 | the alert weight text holds no "/" and is stripped |
| Invoice.NormalizeWeightIdempotent | smartdocs-insight/main.py:232-236 | normalising the weight text twice gives the same text as once |
| Invoice.AlertText | smartdocs-insight/main.py:238-243 | every alert starts with "⚠️ Missing COO → " |
| Invoice.ExtractLineSpec | smartdocs-insight/main.py:207-274 | a row is skipped iff it is not an ITEM row; it is classified iff it is an ITEM row whose field matches; it raises an alert iff it is an ITEM row whose field does not match but holds "/"; the alert holds the line, catalog, description and normalised weight |
| Invoice.ClassifiedSpec | smartdocs-insight/main.py:247-274 | a classified row is described by the leftmost match: the item text, EU membership from its code, and the weight from its numeral and unit |
| Invoice.Box5Of | smartdocs-insight/main.py:218-222 | a row gives at most one Box 5 value, its column 9 stripped and not empty |
| Invoice.StepParts | smartdocs-insight/main.py:207-274 | one loop pass adds exactly the row's own item, weight, alert and Box 5 value to the five accumulators |
| Invoice.ScanByRow | smartdocs-insight/main.py:178-274 | the accumulators do not interfere: each holds exactly the per-row contributions, in row order |
| Invoice.ScanOnlyItemRows | smartdocs-insight/main.py:207-212 | rows that are not ITEM rows change nothing: scanning only the ITEM rows gives the same result |
| Invoice.NonEuWeightNonNegative | smartdocs-insight/main.py:270-274 | the non-EU weight total is never negative |
| Invoice.NoNonEuItemNoWeight | smartdocs-insight/main.py:270-274 | weight is only added with a non-EU item, so with none the total is 0 |
| Invoice.AlertsArePrefixed | smartdocs-insight/main.py:238-243 | every alert of a file starts with the Missing COO prefix |
| Invoice.Box5ValuesSpec | smartdocs-insight/main.py:218-222 | a value is collected iff some ITEM row holds it in column 9 |
| Invoice.Box5PartSpec | smartdocs-insight/main.py:211-222 | a row contributes x iff it is an ITEM row whose column 9, stripped, is x and x is not empty |
| Invoice.JoinedOrUnknownSpec | smartdocs-insight/main.py:276 | the Box 5 reference is "Unknown" iff no value was collected; otherwise it is the ", "-join of every value once, in ascending order |
| Invoice.InvoiceReferenceSpec | smartdocs-insight/main.py:197-204 | the reference is B1 stripped when the first row has two cells and that is not empty, otherwise "Unknown"; the header fallback never changes it |
| Invoice.Round3 | smartdocs-insight/main.py:281 | the per-file weight rounded to 3 decimals is within 0.0005 of the exact total |
| Invoice.Round3Spec | smartdocs-insight/main.py:281 | rounding again changes nothing, and a weight that is not negative stays so |
| Invoice.AddRow | smartdocs-insight/main.py:207-274 | the loop body performs exactly one step of the row loop |
| Invoice.AddOutcome | smartdocs-insight/main.py:226-274 | the COO/weight part of the body records the row's item or alert |
| Invoice.ScanRows | smartdocs-insight/main.py:207-274 | the row loop computes the accumulators of all rows |
| Invoice.ReadInvoiceReference | smartdocs-insight/main.py:197-204 | the reference code computes the invoice reference |
| Invoice.AnalyzeInvoice | smartdocs-insight/main.py:152-290 | analyze_invoice returns the analysis of the file: the five results of the row loop, or the error entry of an unreadable file |
| Metadata.PairOfSpec | smartdocs-insight/main.py:323-334 | a data row gives a pair iff columns 9 and 13 are present and not blank; the sales order is stripped, has no "-", and is what column 13 starts with |
| Metadata.WholeSalesOrder | smartdocs-insight/main.py:333-334 | a column 13 value without "-" is the sales order itself |
| Metadata.QualifyingPairsSpec | smartdocs-insight/main.py:321-335 | a pair is listed iff some row from index 7 on yields it |
| Metadata.ReportedPairs | smartdocs-insight/main.py:321-339 | the reported pairs have no repeats, hold every qualifying pair and nothing else, and keep the order of first occurrence |
| Metadata.AddPair | smartdocs-insight/main.py:323-339 | one loop pass appends the row's pair unless it was seen, keeping `seen` equal to the listed pairs |
| Metadata.CollectPairs | smartdocs-insight/main.py:322-339 | the loop lists the pairs of the data rows de-duplicated in first-occurrence order |
| Metadata.ExtractCsvMetadata | smartdocs-insight/main.py:293-346 | extract_csv_metadata returns B2 and B1 stripped (or ""), the pairs, and an error only for an unreadable file |
| Alerts.RoutingSpec | smartdocs-insight/main.py:1304-1321 | an error entry of analyze_invoice is routed to the issues; an alert never is |
| Alerts.ReadAlertPieces | smartdocs-insight/main.py:1329-1347 | the pieces of an alert read back as its four fields; as written, the reading fails iff the line number is empty |
| Alerts.AlertRoundTrip | smartdocs-insight/main.py:1329-1355 | the summary of an alert is "Line l – c, d, w" for the line, catalog, description and weight it was built from |
| Alerts.AlertRoundTripAsWritten | smartdocs-insight/main.py:1338-1341 | as written, the same summary for a non-empty line number, and an IndexError for an empty one |
| Alerts.BlankLineNumberAborts | smartdocs-insight/main.py:1340-1341 | a concrete alert whose line cell holds only a space: the code as written raises, and the corrected reading gives "Line  – C-1, Bolt, 3KG" |
| Alerts.MissingCooSummary | smartdocs-insight/main.py:1329-1355 | the alert an ITEM row raises reads back as its line number, catalog, description and normalised weight; as written, reading it fails iff the line number is empty |
| Alerts.SummarizeAlert | smartdocs-insight/main.py:1329-1355 | the re-parse loop computes the summary of an entry |
| Batch.ErrorEntries | smartdocs-insight/main.py:1305-1309 | the entries routed to the issues are exactly those that start with "Error during analysis:" |
| Batch.AlertEntries | smartdocs-insight/main.py:1310-1314 | the entries read back as alerts are exactly the others |
| Batch.RoutingPartition | smartdocs-insight/main.py:1304-1314 | every entry goes to exactly one of the two lists, as often as it occurs |
| Batch.SumAppend | smartdocs-insight/main.py:1279-1355 | merging is file by file: the result for a batch split in two is the first part's result extended by the second's |
| Batch.NonEuInFileOrder | smartdocs-insight/main.py:1294 | the non-EU items keep file-then-row order and are not de-duplicated |
| Batch.MissingInFileOrder | smartdocs-insight/main.py:1323-1355 | with several files, a file with alerts contributes its name and then the summaries, in file order |
| Batch.SingleFileMissing | smartdocs-insight/main.py:1323-1355 | with one file, the missing-COO list is its summaries only |
| Batch.EuListing | smartdocs-insight/main.py:1295-1397 | the EU listing is strictly ascending and holds exactly the EU items of all files |
| Batch.Box5List | smartdocs-insight/main.py:1297-1298 | the Box 5 list holds exactly the per-file Box 5 references other than "Unknown" |
| Batch.InvoiceList | smartdocs-insight/main.py:1299-1300 | the invoice list holds exactly the per-file invoice references other than "Unknown" |
| Batch.UnknownBox5 | smartdocs-insight/main.py:1373-1375 | the Box 5 line reads "Unknown" iff every file's Box 5 reference is "Unknown" |
| Batch.UnknownInvoices | smartdocs-insight/main.py:1376-1380 | the reference line reads "Unknown" iff every file's invoice reference is "Unknown" |
| Batch.ReadableFileHasNoErrors | smartdocs-insight/main.py:1304-1321 | a readable file has no error entries: all its entries are alerts |
| Batch.FileIssues | smartdocs-insight/main.py:1316-1321 | a file adds one issue "name → Error during analysis: reason" when unreadable, and none otherwise |
| Batch.IssuesSpec | smartdocs-insight/main.py:1279-1321 | the issues are exactly one line per unreadable file |
| Batch.WeightNonNegative | smartdocs-insight/main.py:1302 | the total weight is never negative |
| Batch.AppendSummaries | smartdocs-insight/main.py:1329-1355 | the inner loop appends the summaries of the alerts in order |
| Batch.RouteEntries | smartdocs-insight/main.py:1304-1355 | one file's entries extend the missing-COO list and the issues as the routing prescribes |
| Batch.AddFile | smartdocs-insight/main.py:1294-1355 | one pass of the file loop adds exactly that file's contribution |
| Batch.Aggregate | smartdocs-insight/main.py:1279-1355 | the file loop computes the merged result of the batch |
| Batch.NumberedSnoc | smartdocs-insight/main.py:1388-1389 | numbering one more item appends its line, numbered after the others |
| Batch.NumberedLines | smartdocs-insight/main.py:1387-1397 | read back line by line, a numbered listing has one line "k+i. item" per item, in order |
| Batch.AppendNumbered | smartdocs-insight/main.py:1388-1389 | the enumerate loop appends the numbered listing |
| Batch.ComposeMessage | smartdocs-insight/main.py:1382-1404 | the += steps build exactly the message text, whose weight line is the batch total rounded to 3 decimals |
| Signature.CloseOf | smartdocs-insight/main.py:1059 | the group of `\(.*?\)` closes at the first ")" with no line break before it |
| Signature.DropGroups | smartdocs-insight/main.py:1059 | removing groups never lengthens a name and leaves a name without "(" alone |
| Signature.Stem | smartdocs-insight/main.py:1060 | splitext keeps a prefix of the name: all of it, or the part before a last "." that does not only follow dots |
| Signature.CsvSig | smartdocs-insight/main.py:1057-1062 | "INV_CSV_n.csv" is signed n |
| Signature.PdfSig | smartdocs-insight/main.py:1057-1062 | "INV_PDF_D_n.pdf" is signed n |
| Signature.CopySig | smartdocs-insight/main.py:1057-1062 | a copy "INV_CSV_n (k).csv" is signed n too |
| Signature.PairedFilesAgree | smartdocs-insight/main.py:1064-1067 | the CSV exports of a set of invoices, with copies, and their PDFs pass the check, and the common signatures are the invoice numbers |
| Signature.UnpairedFileStops | smartdocs-insight/main.py:1064-1067 | a CSV file whose signature no PDF shows fails the check |
| Ordering.SortedSet | smartdocs-insight/main.py:276 | sorted(set): strictly ascending, holding exactly the members, each once |
| Ordering.DedupSpec | smartdocs-insight/main.py:337-339 | the seen-set de-duplication keeps each value once, in first-occurrence order |
| Text.StripSpec | smartdocs-insight/main.py:176 | strip() removes whitespace at both ends and nothing else |
| Text.CollapseIdempotent | smartdocs-insight/main.py:236 | `" ".join(s.split())` applied twice is the same as once |
| Text.SplitJoin | smartdocs-insight/main.py:1331 | joining the pieces of split(c) with c gives back the text |
| Text.NatToStringRoundTrip | smartdocs-insight/main.py:1389 | the decimal rendering of a line number reads back as the number |

## Left out

- CSV tokenising and file decoding, including UTF-8 and the byte-order mark at the start of a file (main.py:193-195, 311-313). The model is given each file's rows, or the reason the file could not be read.
- The exception types of analyze_invoice (main.py:287-290) and extract_csv_metadata (main.py:341-344). Both handlers produce the same result, so the model has one read-failure case with its message.
- The pycountry lookup (main.py:146). It is the map parameter `iso`, and its contents are outside the model.
- Unicode case mapping and Unicode digits. `upper()`, `[A-Za-z]`, `\w` and IGNORECASE are modelled on ASCII letters only, and `\d` and `float()` on the ASCII digits 0-9 only. In Python, both also accept every Unicode decimal digit, so a weight written in full-width digits ("/ MX / ２５ KG") is classified by the source but raises a Missing COO alert in the model.
- Binary floating point. Weights are exact reals, so sums and float() carry no binary rounding error.
- Invoice.Round3: rounds the exact value half to even. Python rounds the nearest double, so the two can differ on a value that is not exact in binary.
- The text form of a float in the message (main.py:1392). The rounding is modelled by Invoice.Round3; float repr is the parameter `render` of ComposeMessage.
- os.path.basename (main.py:1057-1058, 1286, 1318, 1326). Files are given by their base names.
- The "Unexpected error" handler of the file loop (main.py:1284-1292). analyze_invoice catches every exception itself, so this handler is unreachable.
- The file dialog, the CSV/PDF split by extension, the check that both kinds are present, and the PDF BPID comparison (main.py:1036-1103). They are user interaction and PDF text extraction; only the signature check is modelled.
- Logging, timing, the usage counter and all Tkinter widgets and modals (main.py:1016-1032, 1357-1371, 1406-1443). The message's support e-mail and phone come from configuration; they are parameters of ComposeMessage.
- run_metadata_export and extract_bpid_from_pdf (main.py:349-401, 657-878). They write workbooks and read PDFs.
- Invoice.JoinedOrUnknownSpec: stated for value sets that do not hold the text "Unknown" itself. A Box 5 cell reading "Unknown" makes the reference "Unknown" with a value present.
- Alerts.SummarizeAlert, Batch.AppendSummaries, Batch.RouteEntries, Batch.AddFile, Batch.Aggregate: these follow the corrected reading of an alert (see Findings). When an ITEM row has an empty line number and an unreadable COO field, the source raises IndexError at main.py:1341 and select_files ends without a message. For such a batch these members return a summary, or a merged result, instead. Alerts.ReadPartsAsWritten and Alerts.AlertRoundTripAsWritten model the abort.
- Alerts.AlertRoundTrip: stated for fields that are stripped, hold no line break and no warning sign, and for a weight text that normalising leaves alone. A catalog cell with a line break, for instance, splits into pieces that are read differently.
- Signature.PairedFilesAgree: stated for invoice numbers that are stripped and hold no "(", "." or "I". Other numbers can lose text to the prefix removal or the extension split.

## Findings

| source | as written | input that shows it | evidently intended | confidence | as-written member | corrected member |
|---|---|---|---|---|---|---|
| smartdocs-insight/main.py:1340-1341 | a piece starting with "LINE" is read with `p.split(" ", 1)[1]`, which raises IndexError when the piece has no space | an ITEM row whose column 1 holds only a space and whose COO field is "/ 3KG". analyze_invoice builds "…→ Line \n Product: …"; the stripped piece "Line" has no space, so select_files aborts before the message is shown | an empty line number, giving the summary "Line  – C-1, Bolt, 3KG" | not executed | Alerts.BlankLineNumberAborts | Alerts.AlertRoundTrip |
