/**
 * The batch step of select_files: every selected CSV file is analysed, the
 * per-file results are merged into running lists and a running weight,
 * error entries are routed to the file issues, the "Missing COO" alerts are
 * read back into one-line summaries, and the e-mail body is built from the
 * merged lists.
 */
module Batch {
  import opened Text
  import opened Ordering
  import opened Invoice
  import opened Alerts

  /** A selected CSV file: its base name and what reading it gave. */
  datatype InputFile = InputFile(name: string, file: CsvFile)

  /** The running lists and weight of the batch step. */
  datatype Totals = Totals(
    nonEu: seq<string>,
    eu: seq<string>,
    poNumbers: seq<string>,
    invoiceNumbers: seq<string>,
    weightKg: real,
    missingCoo: seq<string>,
    issues: seq<string>)

  const NoTotals: Totals := Totals([], [], [], [], 0.0, [], [])

  /** The marker put before a file's name in the missing-COO list. */
  const FileMark: string := "\U{1F4C4} "

  /** What separates a file's name from its error in the issues list. */
  const IssueArrow: string := " \U{2192} "

  // ---------------------------------------------------------------------
  // One file's share
  // ---------------------------------------------------------------------

  /** The entries main.py routes to the file issues, in order. */
  function ErrorEntries(entries: seq<string>): (r: seq<string>)
    ensures forall e :: e in r <==> e in entries && IsErrorEntry(e)
  {
    if entries == [] then []
    else (if IsErrorEntry(entries[0]) then [entries[0]] else []) + ErrorEntries(entries[1..])
  }

  /** The remaining entries, which are read back as alerts, in order. */
  function AlertEntries(entries: seq<string>): (r: seq<string>)
    ensures forall e :: e in r <==> e in entries && !IsErrorEntry(e)
  {
    if entries == [] then []
    else (if IsErrorEntry(entries[0]) then [] else [entries[0]]) + AlertEntries(entries[1..])
  }

  /** Each entry goes to exactly one of the two lists: together they hold
      every entry as often as it occurs. */
  lemma {:induction false} RoutingPartition(entries: seq<string>)
    ensures multiset(ErrorEntries(entries)) + multiset(AlertEntries(entries)) == multiset(entries)
    decreases |entries|
  {
    if entries != [] {
      RoutingPartition(entries[1..]);
      assert entries == [entries[0]] + entries[1..];
    }
  }

  /** The summaries of the alerts, in order. */
  function Summaries(entries: seq<string>): seq<string> {
    if entries == [] then []
    else Summaries(entries[..|entries| - 1]) + [Summary(entries[|entries| - 1])]
  }

  function IssueLines(name: string, errs: seq<string>): seq<string> {
    if errs == [] then []
    else IssueLines(name, errs[..|errs| - 1]) + [name + IssueArrow + errs[|errs| - 1]]
  }

  /** What a file adds to the missing-COO list: nothing without alerts;
      otherwise its name first when several files are processed, then the
      summaries. */
  function MissingLines(name: string, misses: seq<string>, multiple: bool): seq<string> {
    if misses == [] then []
    else (if multiple then [FileMark + name] else []) + Summaries(misses)
  }

  /** A per-file reference is kept unless it is "Unknown". */
  function Reference(r: string): seq<string> {
    if r == "Unknown" then [] else [r]
  }

  /** What one analysed file adds to each running list and to the weight. */
  function Contribution(name: string, a: InvoiceAnalysis, multiple: bool): Totals {
    Totals(
      a.nonEuItems,
      a.euItems,
      Reference(a.box5Reference),
      Reference(a.invoiceReference),
      a.nonEuWeightKg,
      MissingLines(name, AlertEntries(a.alerts), multiple),
      IssueLines(name, ErrorEntries(a.alerts)))
  }

  // ---------------------------------------------------------------------
  // The whole batch
  // ---------------------------------------------------------------------

  /** Extending every list and adding the weights. */
  function Add(t: Totals, u: Totals): Totals {
    Totals(
      t.nonEu + u.nonEu,
      t.eu + u.eu,
      t.poNumbers + u.poNumbers,
      t.invoiceNumbers + u.invoiceNumbers,
      t.weightKg + u.weightKg,
      t.missingCoo + u.missingCoo,
      t.issues + u.issues)
  }

  /** The shares added up in file order. */
  function Sum(shares: seq<Totals>): Totals {
    if shares == [] then NoTotals
    else Add(Sum(shares[..|shares| - 1]), shares[|shares| - 1])
  }

  /** A file's base name with what analyze_invoice returned for it. */
  datatype Analysed = Analysed(name: string, analysis: InvoiceAnalysis)

  function Analyses(files: seq<InputFile>, iso: map<string, string>): (r: seq<Analysed>)
    ensures |r| == |files|
    ensures forall i :: 0 <= i < |files| ==> r[i] == Analysed(files[i].name, AnalysisOf(files[i].file, iso))
  {
    seq(|files|, i requires 0 <= i < |files| => Analysed(files[i].name, AnalysisOf(files[i].file, iso)))
  }

  function Shares(analysed: seq<Analysed>, multiple: bool): (r: seq<Totals>)
    ensures |r| == |analysed|
    ensures forall i :: 0 <= i < |analysed| ==> r[i] == Contribution(analysed[i].name, analysed[i].analysis, multiple)
  {
    seq(|analysed|, i requires 0 <= i < |analysed| => Contribution(analysed[i].name, analysed[i].analysis, multiple))
  }

  /** The merged result of the analysed files, in order. */
  function Merged(analysed: seq<Analysed>, multiple: bool): Totals {
    Sum(Shares(analysed, multiple))
  }

  /** The merged result of the batch step; file names are shown only when
      more than one file is processed. */
  function BatchOf(files: seq<InputFile>, iso: map<string, string>): Totals {
    Merged(Analyses(files, iso), |files| > 1)
  }

  lemma AddAssociative(t: Totals, u: Totals, v: Totals)
    ensures Add(Add(t, u), v) == Add(t, Add(u, v))
  {
    assert (t.nonEu + u.nonEu) + v.nonEu == t.nonEu + (u.nonEu + v.nonEu);
    assert (t.eu + u.eu) + v.eu == t.eu + (u.eu + v.eu);
    assert (t.poNumbers + u.poNumbers) + v.poNumbers == t.poNumbers + (u.poNumbers + v.poNumbers);
    assert (t.invoiceNumbers + u.invoiceNumbers) + v.invoiceNumbers
           == t.invoiceNumbers + (u.invoiceNumbers + v.invoiceNumbers);
    assert (t.missingCoo + u.missingCoo) + v.missingCoo == t.missingCoo + (u.missingCoo + v.missingCoo);
    assert (t.issues + u.issues) + v.issues == t.issues + (u.issues + v.issues);
  }

  lemma AddNothing(t: Totals)
    ensures Add(t, NoTotals) == t
  {
    assert t.nonEu + [] == t.nonEu && t.eu + [] == t.eu;
    assert t.poNumbers + [] == t.poNumbers && t.invoiceNumbers + [] == t.invoiceNumbers;
    assert t.missingCoo + [] == t.missingCoo && t.issues + [] == t.issues;
  }

  /** Merging is done file by file: the result for a batch split in two is
      the result for the first part extended by the result for the second. */
  lemma {:induction false} SumAppend(a: seq<Totals>, b: seq<Totals>)
    ensures Sum(a + b) == Add(Sum(a), Sum(b))
    decreases |b|
  {
    if b == [] {
      assert a + b == a;
      AddNothing(Sum(a));
    } else {
      var pre := b[..|b| - 1];
      var last := b[|b| - 1];
      assert (a + b)[..|a + b| - 1] == a + pre;
      assert (a + b)[|a + b| - 1] == last;
      SumAppend(a, pre);
      AddAssociative(Sum(a), Sum(pre), last);
    }
  }

  lemma SumOne(t: Totals)
    ensures Sum([t]) == t
  {
    assert [t][..0] == [];
    assert Add(NoTotals, t).nonEu == t.nonEu;
    assert Add(NoTotals, t).eu == t.eu;
    assert Add(NoTotals, t).poNumbers == t.poNumbers;
    assert Add(NoTotals, t).invoiceNumbers == t.invoiceNumbers;
    assert Add(NoTotals, t).missingCoo == t.missingCoo;
    assert Add(NoTotals, t).issues == t.issues;
  }

  /** File i's share sits between the shares of the files before it and
      those of the files after it. */
  lemma SumAround(shares: seq<Totals>, i: nat)
    requires i < |shares|
    ensures Sum(shares) == Add(Add(Sum(shares[..i]), shares[i]), Sum(shares[i + 1..]))
  {
    assert shares == shares[..i] + [shares[i]] + shares[i + 1..];
    SumAppend(shares[..i] + [shares[i]], shares[i + 1..]);
    SumAppend(shares[..i], [shares[i]]);
    SumOne(shares[i]);
  }

  /** A value is in one of the merged lists exactly when some file's share
      of that list holds it. */
  lemma {:induction false} SumMember(shares: seq<Totals>, list: Totals -> seq<string>, x: string)
    requires forall t, u :: list(Add(t, u)) == list(t) + list(u)
    requires list(NoTotals) == []
    ensures x in list(Sum(shares)) <==> exists i :: 0 <= i < |shares| && x in list(shares[i])
    decreases |shares|
  {
    if shares != [] {
      var pre := shares[..|shares| - 1];
      var last := shares[|shares| - 1];
      SumMember(pre, list, x);
      assert list(Sum(shares)) == list(Sum(pre)) + list(last);
      if exists i :: 0 <= i < |pre| && x in list(pre[i]) {
        var i :| 0 <= i < |pre| && x in list(pre[i]);
        assert pre[i] == shares[i];
      }
      if exists i :: 0 <= i < |shares| && x in list(shares[i]) {
        var i :| 0 <= i < |shares| && x in list(shares[i]);
        if i < |pre| {
          assert pre[i] == shares[i];
        }
      }
    }
  }

  /** The weights of the files added up. */
  lemma {:induction false} SumWeightNonNegative(shares: seq<Totals>)
    requires forall i :: 0 <= i < |shares| ==> shares[i].weightKg >= 0.0
    ensures Sum(shares).weightKg >= 0.0
    decreases |shares|
  {
    if shares != [] {
      var pre := shares[..|shares| - 1];
      assert forall i :: 0 <= i < |pre| ==> pre[i] == shares[i];
      SumWeightNonNegative(pre);
    }
  }

  // ---------------------------------------------------------------------
  // Properties of the batch
  // ---------------------------------------------------------------------

  /** The shares of the first files are the shares of those files alone. */
  lemma SharesPrefix(analysed: seq<Analysed>, multiple: bool, i: nat)
    requires i <= |analysed|
    ensures Shares(analysed, multiple)[..i] == Shares(analysed[..i], multiple)
    ensures Shares(analysed, multiple)[i..] == Shares(analysed[i..], multiple)
  {
  }

  /** File i's share of the merged result lies between the result for the
      files before it and the result for the files after it. */
  lemma MergedAround(analysed: seq<Analysed>, multiple: bool, i: nat)
    requires i < |analysed|
    ensures Merged(analysed, multiple)
            == Add(Add(Merged(analysed[..i], multiple), Contribution(analysed[i].name, analysed[i].analysis, multiple)),
                   Merged(analysed[i + 1..], multiple))
  {
    SumAround(Shares(analysed, multiple), i);
    SharesPrefix(analysed, multiple, i);
    SharesPrefix(analysed, multiple, i + 1);
  }

  /** The non-EU items keep file-then-row order and are not de-duplicated:
      the list is the items of the files before file i, then file i's own
      non-EU items as analyze_invoice returned them, then those of the later
      files. */
  lemma NonEuInFileOrder(analysed: seq<Analysed>, multiple: bool, i: nat)
    requires i < |analysed|
    ensures Merged(analysed, multiple).nonEu
            == Merged(analysed[..i], multiple).nonEu + analysed[i].analysis.nonEuItems
               + Merged(analysed[i + 1..], multiple).nonEu
  {
    MergedAround(analysed, multiple, i);
  }

  /** With several files, each file that has alerts is announced by its name,
      just before the summaries of its alerts, and the lines of the other
      files come before and after. */
  lemma MissingInFileOrder(analysed: seq<Analysed>, i: nat)
    requires i < |analysed|
    requires AlertEntries(analysed[i].analysis.alerts) != []
    ensures Merged(analysed, true).missingCoo
            == Merged(analysed[..i], true).missingCoo
               + ([FileMark + analysed[i].name] + Summaries(AlertEntries(analysed[i].analysis.alerts)))
               + Merged(analysed[i + 1..], true).missingCoo
  {
    MergedAround(analysed, true, i);
  }

  /** With a single file, the missing-COO list is the summaries of its
      alerts, in order, without a heading. */
  lemma SingleFileMissing(a: Analysed)
    ensures Merged([a], false).missingCoo == Summaries(AlertEntries(a.analysis.alerts))
  {
    var shares := Shares([a], false);
    assert shares == [shares[0]];
    SumOne(shares[0]);
    var misses := AlertEntries(a.analysis.alerts);
    if misses == [] {
      assert Summaries(misses) == [];
    } else {
      assert [] + Summaries(misses) == Summaries(misses);
    }
  }

  /** An item is listed under "EU items" exactly when some file lists it as
      an EU item, and the listing is in ascending order without repeats. */
  lemma EuListing(analysed: seq<Analysed>, multiple: bool)
    ensures var listing := SortedSet(Elems(Merged(analysed, multiple).eu));
            && StrictlySorted(listing)
            && forall x :: x in listing <==> exists i :: 0 <= i < |analysed| && x in analysed[i].analysis.euItems
  {
    var shares := Shares(analysed, multiple);
    forall x
      ensures x in Merged(analysed, multiple).eu <==> exists i :: 0 <= i < |analysed| && x in analysed[i].analysis.euItems
    {
      SumMember(shares, (t: Totals) => t.eu, x);
      if exists i :: 0 <= i < |analysed| && x in analysed[i].analysis.euItems {
        var i :| 0 <= i < |analysed| && x in analysed[i].analysis.euItems;
        assert x in shares[i].eu;
      }
    }
  }

  /** The Box 5 list holds exactly the per-file Box 5 references other than
      "Unknown". */
  lemma Box5List(analysed: seq<Analysed>, multiple: bool, x: string)
    ensures x in Merged(analysed, multiple).poNumbers <==>
              x != "Unknown" && exists i :: 0 <= i < |analysed| && analysed[i].analysis.box5Reference == x
  {
    var shares := Shares(analysed, multiple);
    SumMember(shares, (t: Totals) => t.poNumbers, x);
    if x != "Unknown" && exists i :: 0 <= i < |analysed| && analysed[i].analysis.box5Reference == x {
      var i :| 0 <= i < |analysed| && analysed[i].analysis.box5Reference == x;
      assert x in shares[i].poNumbers;
    }
  }

  /** The invoice list holds exactly the per-file invoice references other
      than "Unknown". */
  lemma InvoiceList(analysed: seq<Analysed>, multiple: bool, x: string)
    ensures x in Merged(analysed, multiple).invoiceNumbers <==>
              x != "Unknown" && exists i :: 0 <= i < |analysed| && analysed[i].analysis.invoiceReference == x
  {
    var shares := Shares(analysed, multiple);
    SumMember(shares, (t: Totals) => t.invoiceNumbers, x);
    if x != "Unknown" && exists i :: 0 <= i < |analysed| && analysed[i].analysis.invoiceReference == x {
      var i :| 0 <= i < |analysed| && analysed[i].analysis.invoiceReference == x;
      assert x in shares[i].invoiceNumbers;
    }
  }

  /** The Box 5 line of the message reads "Unknown" exactly when no file has
      a Box 5 reference. */
  lemma UnknownBox5(analysed: seq<Analysed>, multiple: bool)
    ensures JoinedOrUnknown(Elems(Merged(analysed, multiple).poNumbers)) == "Unknown" <==>
              forall i :: 0 <= i < |analysed| ==> analysed[i].analysis.box5Reference == "Unknown"
  {
    var t := Merged(analysed, multiple);
    Box5List(analysed, multiple, "Unknown");
    JoinedOrUnknownSpec(Elems(t.poNumbers));
    if t.poNumbers != [] {
      Box5List(analysed, multiple, t.poNumbers[0]);
    }
    if exists i :: 0 <= i < |analysed| && analysed[i].analysis.box5Reference != "Unknown" {
      var i :| 0 <= i < |analysed| && analysed[i].analysis.box5Reference != "Unknown";
      Box5List(analysed, multiple, analysed[i].analysis.box5Reference);
    }
  }

  /** The reference line of the message reads "Unknown" exactly when no file
      has an invoice reference. */
  lemma UnknownInvoices(analysed: seq<Analysed>, multiple: bool)
    ensures JoinedOrUnknown(Elems(Merged(analysed, multiple).invoiceNumbers)) == "Unknown" <==>
              forall i :: 0 <= i < |analysed| ==> analysed[i].analysis.invoiceReference == "Unknown"
  {
    var t := Merged(analysed, multiple);
    InvoiceList(analysed, multiple, "Unknown");
    JoinedOrUnknownSpec(Elems(t.invoiceNumbers));
    if t.invoiceNumbers != [] {
      InvoiceList(analysed, multiple, t.invoiceNumbers[0]);
    }
    if exists i :: 0 <= i < |analysed| && analysed[i].analysis.invoiceReference != "Unknown" {
      var i :| 0 <= i < |analysed| && analysed[i].analysis.invoiceReference != "Unknown";
      InvoiceList(analysed, multiple, analysed[i].analysis.invoiceReference);
    }
  }

  /** The issues are the error entries of the files, each under its file's name. */
  lemma IssuesOf(analysed: seq<Analysed>, multiple: bool, x: string)
    ensures x in Merged(analysed, multiple).issues <==>
              exists i :: 0 <= i < |analysed| && x in IssueLines(analysed[i].name, ErrorEntries(analysed[i].analysis.alerts))
  {
    var shares := Shares(analysed, multiple);
    SumMember(shares, (t: Totals) => t.issues, x);
    if exists i :: 0 <= i < |analysed| && x in IssueLines(analysed[i].name, ErrorEntries(analysed[i].analysis.alerts)) {
      var i :| 0 <= i < |analysed| && x in IssueLines(analysed[i].name, ErrorEntries(analysed[i].analysis.alerts));
      assert x in shares[i].issues;
    }
  }

  /** A readable file produces no issue: all its entries are alerts. */
  lemma ReadableFileHasNoErrors(rows: seq<Row>, iso: map<string, string>)
    ensures ErrorEntries(AnalysisOf(Rows(rows), iso).alerts) == []
    ensures AlertEntries(AnalysisOf(Rows(rows), iso).alerts) == AnalysisOf(Rows(rows), iso).alerts
  {
    var alerts := AnalysisOf(Rows(rows), iso).alerts;
    ScanByRow(rows, iso);
    AlertsArePrefixed(rows, iso);
    forall a | a in alerts
      ensures !IsErrorEntry(a)
    {
      assert a[0] == AlertPrefix[0];
    }
    NoErrorEntries(alerts);
  }

  lemma {:induction false} NoErrorEntries(entries: seq<string>)
    requires forall e :: e in entries ==> !IsErrorEntry(e)
    ensures ErrorEntries(entries) == [] && AlertEntries(entries) == entries
    decreases |entries|
  {
    if entries != [] {
      assert entries[0] in entries;
      assert forall e :: e in entries[1..] ==> e in entries;
      NoErrorEntries(entries[1..]);
      assert entries == [entries[0]] + entries[1..];
    }
  }

  /** What a file adds to the issues: nothing when it can be read, and its
      one read error under its name when it cannot. */
  lemma FileIssues(f: InputFile, iso: map<string, string>)
    ensures IssueLines(f.name, ErrorEntries(AnalysisOf(f.file, iso).alerts))
            == if f.file.ReadFailed? then [f.name + IssueArrow + ErrorPrefix + f.file.reason] else []
  {
    match f.file
    case Rows(rows) =>
      ReadableFileHasNoErrors(rows, iso);
    case ReadFailed(reason) =>
      var e := ErrorPrefix + reason;
      RoutingSpec(reason, "", "", "", "");
      assert [e][1..] == [];
      assert ErrorEntries([e]) == [e];
      assert [e][..0] == [];
      assert AnalysisOf(f.file, iso).alerts == [e];
      assert IssueLines(f.name, [e]) == IssueLines(f.name, []) + [f.name + IssueArrow + e];
      assert f.name + IssueArrow + e == f.name + IssueArrow + ErrorPrefix + reason;
  }

  /** The issues are exactly one line per unreadable file, giving its name
      and its read error; readable files never add an issue. */
  lemma IssuesSpec(files: seq<InputFile>, iso: map<string, string>, x: string)
    ensures x in BatchOf(files, iso).issues <==>
              exists i :: 0 <= i < |files| && files[i].file.ReadFailed?
                          && x == files[i].name + IssueArrow + ErrorPrefix + files[i].file.reason
  {
    var analysed := Analyses(files, iso);
    IssuesOf(analysed, |files| > 1, x);
    forall i | 0 <= i < |files|
      ensures x in IssueLines(analysed[i].name, ErrorEntries(analysed[i].analysis.alerts)) <==>
                files[i].file.ReadFailed? && x == files[i].name + IssueArrow + ErrorPrefix + files[i].file.reason
    {
      FileIssues(files[i], iso);
    }
  }

  lemma FileWeightNonNegative(file: CsvFile, iso: map<string, string>)
    ensures AnalysisOf(file, iso).nonEuWeightKg >= 0.0
  {
    match file
    case Rows(rows) =>
      ScanByRow(rows, iso);
      NonEuWeightNonNegative(rows, iso);
      Round3Spec(Scan(rows, iso).weightKg);
    case ReadFailed(_) =>
  }

  /** The total weight is never negative. */
  lemma WeightNonNegative(files: seq<InputFile>, iso: map<string, string>)
    ensures BatchOf(files, iso).weightKg >= 0.0
  {
    var analysed := Analyses(files, iso);
    var shares := Shares(analysed, |files| > 1);
    forall i | 0 <= i < |shares|
      ensures shares[i].weightKg >= 0.0
    {
      FileWeightNonNegative(files[i].file, iso);
    }
    SumWeightNonNegative(shares);
  }

  // ---------------------------------------------------------------------
  // The merge loop
  // ---------------------------------------------------------------------

  /** The inner loop over the alerts of one file. */
  method AppendSummaries(missingCoo: seq<string>, misses: seq<string>) returns (missingCoo': seq<string>)
    ensures missingCoo' == missingCoo + Summaries(misses)
  {
    missingCoo' := missingCoo;
    var j := 0;
    assert misses[..0] == [];
    while j < |misses|
      invariant 0 <= j <= |misses|
      invariant missingCoo' == missingCoo + Summaries(misses[..j])
    {
      var summary := SummarizeAlert(misses[j]);
      assert misses[..j + 1][..j] == misses[..j];
      missingCoo' := missingCoo' + [summary];
      j := j + 1;
    }
    assert misses[..|misses|] == misses;
  }

  /** The alert handling of one pass: under `if missing_coo`, the error
      entries go to the issues and the alerts, after the file's name when
      several files are processed, to the missing-COO list. */
  method RouteEntries(missingCoo: seq<string>, issues: seq<string>, name: string, entries: seq<string>, multiple: bool)
    returns (missingCoo': seq<string>, issues': seq<string>)
    ensures missingCoo' == missingCoo + MissingLines(name, AlertEntries(entries), multiple)
    ensures issues' == issues + IssueLines(name, ErrorEntries(entries))
  {
    missingCoo', issues' := missingCoo, issues;
    if entries == [] {
      assert missingCoo + [] == missingCoo && issues + [] == issues;
      return;
    }
    var errs := ErrorEntries(entries);
    var misses := AlertEntries(entries);
    issues' := issues' + IssueLines(name, errs);
    if misses != [] {
      if multiple {
        missingCoo' := missingCoo' + [FileMark + name];
      }
      missingCoo' := AppendSummaries(missingCoo', misses);
    }
    ExtendMissing(missingCoo, name, misses, multiple);
  }

  /** The missing-COO list after one file, in the two steps main.py takes. */
  lemma ExtendMissing(missingCoo: seq<string>, name: string, misses: seq<string>, multiple: bool)
    ensures missingCoo + MissingLines(name, misses, multiple)
            == if misses == [] then missingCoo
               else (if multiple then missingCoo + [FileMark + name] else missingCoo) + Summaries(misses)
  {
    if misses == [] {
      assert missingCoo + [] == missingCoo;
    } else if multiple {
      assert (missingCoo + [FileMark + name]) + Summaries(misses) == missingCoo + ([FileMark + name] + Summaries(misses));
    } else {
      assert [] + Summaries(misses) == Summaries(misses);
    }
  }

  /** One pass of the file loop: extend the lists with one analysis, keep
      the references other than "Unknown", add the weight, and route the
      entries. */
  method AddFile(t: Totals, name: string, a: InvoiceAnalysis, multiple: bool) returns (t': Totals)
    ensures t' == Add(t, Contribution(name, a, multiple))
  {
    var poNumbers := t.poNumbers;
    var invoiceNumbers := t.invoiceNumbers;
    if a.box5Reference != "Unknown" {
      poNumbers := poNumbers + [a.box5Reference];
    } else {
      assert poNumbers + [] == poNumbers;
    }
    if a.invoiceReference != "Unknown" {
      invoiceNumbers := invoiceNumbers + [a.invoiceReference];
    } else {
      assert invoiceNumbers + [] == invoiceNumbers;
    }
    var missingCoo, issues := RouteEntries(t.missingCoo, t.issues, name, a.alerts, multiple);
    t' := Totals(t.nonEu + a.nonEuItems, t.eu + a.euItems, poNumbers, invoiceNumbers,
                 t.weightKg + a.nonEuWeightKg, missingCoo, issues);
  }

  /** Merging one more share. */
  lemma SumStep(shares: seq<Totals>, i: nat)
    requires i < |shares|
    ensures Sum(shares[..i + 1]) == Add(Sum(shares[..i]), shares[i])
  {
    assert shares[..i + 1][..i] == shares[..i];
  }

  /** The loop over the selected CSV files. */
  method Aggregate(files: seq<InputFile>, iso: map<string, string>) returns (t: Totals)
    ensures t == BatchOf(files, iso)
  {
    var multiple := |files| > 1;
    ghost var shares := Shares(Analyses(files, iso), multiple);
    t := NoTotals;
    var i := 0;
    assert shares[..0] == [];
    while i < |files|
      invariant 0 <= i <= |files|
      invariant t == Sum(shares[..i])
    {
      var a := AnalyzeInvoice(files[i].file, iso);
      SumStep(shares, i);
      t := AddFile(t, files[i].name, a, multiple);
      i := i + 1;
    }
    assert shares[..|files|] == shares;
  }

  // ---------------------------------------------------------------------
  // The message
  // ---------------------------------------------------------------------

  const Greeting: string :=
    "Dear Team,\n\nPlease proceed requesting the respective Certificate of Origin for the attached invoices.\n\n"

  /** One numbered line of a listing: f"{k}. {item}\n". */
  function NumberedLine(k: nat, item: string): string {
    NatToString(k) + ". " + item + "\n"
  }

  /** The items numbered from k on, one per line. */
  function Numbered(items: seq<string>, k: nat): string
    decreases |items|
  {
    if items == [] then "" else NumberedLine(k, items[0]) + Numbered(items[1..], k + 1)
  }

  /** Numbering one more item appends its line, numbered after the others. */
  lemma {:induction false} NumberedSnoc(items: seq<string>, x: string, k: nat)
    ensures Numbered(items + [x], k) == Numbered(items, k) + NumberedLine(k + |items|, x)
    decreases |items|
  {
    if items == [] {
      assert [x][1..] == [];
    } else {
      assert (items + [x])[1..] == items[1..] + [x];
      NumberedSnoc(items[1..], x, k + 1);
    }
  }

  /** Read back line by line, a listing of items that hold no line break
      gives the line "<k + i>. <item i>" for every item, then nothing. */
  lemma {:induction false} NumberedLines(items: seq<string>, k: nat)
    requires forall i :: 0 <= i < |items| ==> '\n' !in items[i]
    ensures var lines := Split(Numbered(items, k), '\n');
            && |lines| == |items| + 1 && lines[|items|] == ""
            && forall i :: 0 <= i < |items| ==> lines[i] == NatToString(k + i) + ". " + items[i]
    decreases |items|
  {
    if items == [] {
      SplitWithout("", '\n');
    } else {
      var head := NatToString(k) + ". " + items[0];
      assert '\n' !in NatToString(k);
      assert '\n' !in head;
      NumberedLines(items[1..], k + 1);
      assert Numbered(items, k) == head + ['\n'] + Numbered(items[1..], k + 1);
      SplitAtFirst(head, Numbered(items[1..], k + 1), '\n');
    }
  }

  /** The e-mail body; render is the text form of a float, applied to the
      total weight rounded to 3 decimals, email and phone the configured
      contact details. */
  function MessageText(t: Totals, render: real -> string, email: string, phone: string): string {
    Greeting
    + "Non-EU items:\n" + Numbered(t.nonEu, 1)
    + "\nReference: inv. " + JoinedOrUnknown(Elems(t.invoiceNumbers)) + "\n"
    + "Weight: " + render(Round3(t.weightKg)) + " KG\n"
    + "Box 5: " + JoinedOrUnknown(Elems(t.poNumbers)) + "\n\n"
    + "EU items:\n" + Numbered(SortedSet(Elems(t.eu)), 1)
    + "\nBest regards,\nCustomer Care Team\n"
    + "Email: " + email + "\n"
    + "Phone: " + phone + "\n"
  }

  /** Appending a numbered listing line by line, as the two enumerate loops do. */
  method AppendNumbered(message: string, items: seq<string>) returns (message': string)
    ensures message' == message + Numbered(items, 1)
  {
    message' := message;
    var i := 0;
    assert items[..0] == [];
    while i < |items|
      invariant 0 <= i <= |items|
      invariant message' == message + Numbered(items[..i], 1)
    {
      NumberedSnoc(items[..i], items[i], 1);
      assert items[..i] + [items[i]] == items[..i + 1];
      message' := message' + NumberedLine(i + 1, items[i]);
      i := i + 1;
    }
    assert items[..|items|] == items;
  }

  /** Building the message with +=. */
  method ComposeMessage(t: Totals, render: real -> string, email: string, phone: string) returns (message: string)
    ensures message == MessageText(t, render, email, phone)
  {
    var invoiceList := if t.invoiceNumbers != [] then Join(SortedSet(Elems(t.invoiceNumbers)), ", ") else "Unknown";
    var box5List := if t.poNumbers != [] then Join(SortedSet(Elems(t.poNumbers)), ", ") else "Unknown";
    assert t.invoiceNumbers != [] ==> t.invoiceNumbers[0] in Elems(t.invoiceNumbers);
    assert t.poNumbers != [] ==> t.poNumbers[0] in Elems(t.poNumbers);
    message := Greeting;
    message := message + "Non-EU items:\n";
    message := AppendNumbered(message, t.nonEu);
    message := message + "\nReference: inv. " + invoiceList + "\n";
    message := message + "Weight: " + render(Round3(t.weightKg)) + " KG\n";
    message := message + "Box 5: " + box5List + "\n\n";
    message := message + "EU items:\n";
    message := AppendNumbered(message, SortedSet(Elems(t.eu)));
    message := message + "\nBest regards,\nCustomer Care Team\n" + "Email: " + email + "\n" + "Phone: " + phone + "\n";
  }
}
