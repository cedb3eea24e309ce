/**
 * The file-name signature select_files compares before it analyses a batch:
 * the base name without its parenthesised parts, without its extension and
 * without the "INV_CSV_" / "INV_PDF_D_" prefixes, stripped. The selected CSV
 * and PDF files belong to the same invoice when they show the same set of
 * signatures.
 */
module Signature {
  import opened Text
  import opened Ordering

  /** The index of the first ")" of t, when no line break comes before it
      (the "." of the pattern does not match a line break). */
  function CloseOf(t: string): (r: Option<nat>)
    ensures r.Some? ==> r.value < |t| && t[r.value] == ')'
    ensures r.Some? ==> forall k :: 0 <= k < r.value ==> t[k] != ')' && t[k] != '\n'
    ensures ')' !in t ==> r.None?
    decreases |t|
  {
    if t == [] || t[0] == '\n' then None
    else if t[0] == ')' then Some(0)
    else
      match CloseOf(t[1..])
      case None => None
      case Some(j) => Some(j + 1)
  }

  /** re.sub(r"\(.*?\)", "", s): a "(" with a ")" after it on the same line is
      removed together with everything up to the first such ")", and the
      scan goes on after it; any other character is kept. */
  function DropGroups(s: string): (r: string)
    ensures |r| <= |s|
    ensures '(' !in s ==> r == s
    decreases |s|
  {
    if s == [] then []
    else if s[0] == '(' then
      match CloseOf(s[1..])
      case Some(j) => DropGroups(s[j + 2..])
      case None => [s[0]] + DropGroups(s[1..])
    else
      assert s == [s[0]] + s[1..];
      [s[0]] + DropGroups(s[1..])
  }

  predicate AllDots(s: string) {
    forall k :: 0 <= k < |s| ==> s[k] == '.'
  }

  /** os.path.splitext(b)[0] for a base name: everything before the last
      ".", unless only dots come before it (".csv" has no extension). */
  function Stem(b: string): (r: string)
    ensures |r| <= |b| && r == b[..|r|]
    ensures r == b || (b[|r|] == '.' && '.' !in b[|r| + 1..] && !AllDots(r))
  {
    var ext := AfterLast(b, '.');
    if |ext| == |b| then b
    else
      var root := b[..|b| - |ext| - 1];
      assert b[|root| + 1..] == ext;
      if AllDots(root) then b else root
  }

  /** _sig: the signature of a file's base name. */
  function Sig(name: string): string {
    Strip(ReplaceAll(ReplaceAll(Stem(DropGroups(name)), "INV_CSV_", ""), "INV_PDF_D_", ""))
  }

  /** The set of signatures of a list of base names. */
  function Signatures(names: seq<string>): set<string> {
    set i | 0 <= i < |names| :: Sig(names[i])
  }

  /** The CSV and PDF files belong to the same invoice. */
  predicate SameInvoice(csvNames: seq<string>, pdfNames: seq<string>) {
    Signatures(csvNames) == Signatures(pdfNames)
  }

  /** An invoice number as it appears in the exported file names. */
  predicate PlainNumber(n: string) {
    IsStripped(n) && '(' !in n && '.' !in n && 'I' !in n
  }

  const CsvMark: string := "INV_CSV_"
  const PdfMark: string := "INV_PDF_D_"
  const CsvExtension: string := ".csv"
  const PdfExtension: string := ".pdf"

  /** The name of the CSV export of invoice n, and of its PDF. */
  function CsvName(n: string): string {
    CsvMark + n + CsvExtension
  }

  function PdfName(n: string): string {
    PdfMark + n + PdfExtension
  }

  /** The name of a second copy of the CSV export, as a browser saves it:
      " (copy)" before the extension. */
  function CsvCopyName(n: string, copy: string): string {
    (CsvMark + (n + " ")) + ("(" + copy + ")" + CsvExtension)
  }

  /** The last "." of a name is the one before a dot-free extension. */
  lemma {:induction false} AfterLastDot(root: string, ext: string)
    requires '.' !in ext
    ensures AfterLast(root + "." + ext, '.') == ext
    decreases |ext|
  {
    var b := root + "." + ext;
    if ext == [] {
      assert b[|b| - 1] == '.';
    } else {
      var init := ext[..|ext| - 1];
      assert '.' !in init by { assert forall k :: 0 <= k < |init| ==> init[k] == ext[k]; }
      assert b[..|b| - 1] == root + "." + init;
      assert b[|b| - 1] == ext[|ext| - 1];
      AfterLastDot(root, init);
      assert init + [ext[|ext| - 1]] == ext;
    }
  }

  /** A name ending in an extension after a text that does not start with
      a dot loses exactly that extension. */
  lemma StemOfExtension(root: string, ext: string)
    requires |ext| >= 1 && ext[0] == '.' && '.' !in ext[1..] && root != [] && root[0] != '.'
    ensures Stem(root + ext) == root
  {
    var b := root + ext;
    assert b == root + "." + ext[1..];
    AfterLastDot(root, ext[1..]);
    assert b[..|b| - |ext[1..]| - 1] == root;
  }

  /** Removing the mark from the front of a text without "I". */
  lemma DropMark(mark: string, n: string)
    requires mark != [] && mark[0] == 'I' && 'I' !in n
    ensures ReplaceAll(mark + n, mark, "") == n
  {
    ReplaceAtStart(n, mark, "");
    ReplaceAbsent(n, mark, "");
  }

  /** The CSV mark does not occur in the PDF mark followed by a text without "I". */
  lemma KeepPdfMark(n: string)
    requires 'I' !in n
    ensures ReplaceAll(PdfMark + n, CsvMark, "") == PdfMark + n
  {
    var s := PdfMark + n;
    assert s[..8] == "INV_PDF_" && s[..8] != CsvMark;
    assert s[1..] == "NV_PDF_D_" + n;
    assert 'I' !in s[1..];
    ReplaceAbsent(s[1..], CsvMark, "");
  }

  /** The signature of a CSV export name with any text after the mark. */
  lemma CsvNameSig(t: string)
    requires 'I' !in t && '(' !in t && '.' !in t
    ensures Sig(CsvName(t)) == Strip(t)
  {
    var stem := CsvMark + t;
    assert '(' !in CsvName(t);
    assert stem[0] == 'I' && '.' !in CsvExtension[1..];
    StemOfExtension(stem, CsvExtension);
    DropMark(CsvMark, t);
    ReplaceAbsent(t, PdfMark, "");
  }

  /** The CSV export of an invoice is signed with the invoice number. */
  lemma CsvSig(n: string)
    requires PlainNumber(n)
    ensures Sig(CsvName(n)) == n
  {
    CsvNameSig(n);
    StripOfStripped(n);
  }

  /** The PDF of an invoice is signed with the invoice number. */
  lemma PdfSig(n: string)
    requires PlainNumber(n)
    ensures Sig(PdfName(n)) == n
  {
    var stem := PdfMark + n;
    assert '(' !in PdfName(n);
    assert stem[0] == 'I' && '.' !in PdfExtension[1..];
    StemOfExtension(stem, PdfExtension);
    KeepPdfMark(n);
    DropMark(PdfMark, n);
    StripOfStripped(n);
  }

  /** Text before the first "(" is kept as it is. */
  lemma {:induction false} DropGroupsAfter(a: string, b: string)
    requires '(' !in a
    ensures DropGroups(a + b) == a + DropGroups(b)
    decreases |a|
  {
    if a != [] {
      assert (a + b)[0] == a[0];
      assert (a + b)[1..] == a[1..] + b;
      DropGroupsAfter(a[1..], b);
      assert a == [a[0]] + a[1..];
    } else {
      assert a + b == b;
    }
  }

  /** The ")" that closes a group without ")" or line break inside. */
  lemma {:induction false} CloseOfGroup(copy: string, rest: string)
    requires ')' !in copy && '\n' !in copy
    ensures CloseOf(copy + ")" + rest) == Some(|copy|)
    decreases |copy|
  {
    var t := copy + ")" + rest;
    if copy != [] {
      assert t[0] == copy[0];
      assert t[1..] == copy[1..] + ")" + rest;
      CloseOfGroup(copy[1..], rest);
    }
  }

  /** A group followed by a text without "(" is removed. */
  lemma DropGroup(copy: string, rest: string)
    requires ')' !in copy && '\n' !in copy && '(' !in rest
    ensures DropGroups("(" + copy + ")" + rest) == rest
  {
    var s := "(" + copy + ")" + rest;
    assert s[1..] == copy + ")" + rest;
    CloseOfGroup(copy, rest);
    assert s[|copy| + 2..] == rest;
  }

  /** A copy marker " (k)" is removed with its parentheses; the space before
      it goes with the final strip. */
  lemma CopySig(n: string, copy: string)
    requires PlainNumber(n) && ')' !in copy && '\n' !in copy
    ensures Sig(CsvCopyName(n, copy)) == n
  {
    var t := n + " ";
    assert '(' !in CsvMark + t && '(' !in CsvExtension;
    DropGroupsAfter(CsvMark + t, "(" + copy + ")" + CsvExtension);
    DropGroup(copy, CsvExtension);
    assert DropGroups(CsvCopyName(n, copy)) == DropGroups(CsvName(t));
    assert 'I' !in t && '(' !in t && '.' !in t;
    CsvNameSig(t);
    StripTrailingSpaces(n, " ");
  }

  /** The signatures of names signed with the given numbers are those numbers. */
  lemma SignaturesOf(names: seq<string>, numbers: seq<string>)
    requires |names| == |numbers|
    requires forall i :: 0 <= i < |names| ==> Sig(names[i]) == numbers[i]
    ensures Signatures(names) == Elems(numbers)
  {
    forall x | x in Elems(numbers)
      ensures x in Signatures(names)
    {
      var i :| 0 <= i < |numbers| && numbers[i] == x;
      assert Sig(names[i]) == x;
    }
  }

  /** The CSV exports of the invoices, the copies of them, and their PDFs. */
  function CsvNames(numbers: seq<string>): (r: seq<string>)
    ensures |r| == |numbers| && forall i :: 0 <= i < |numbers| ==> r[i] == CsvName(numbers[i])
  {
    seq(|numbers|, i requires 0 <= i < |numbers| => CsvName(numbers[i]))
  }

  function CopyNames(numbers: seq<string>, copies: seq<string>): (r: seq<string>)
    requires |copies| == |numbers|
    ensures |r| == |numbers| && forall i :: 0 <= i < |numbers| ==> r[i] == CsvCopyName(numbers[i], copies[i])
  {
    seq(|numbers|, i requires 0 <= i < |numbers| => CsvCopyName(numbers[i], copies[i]))
  }

  function PdfNames(numbers: seq<string>): (r: seq<string>)
    ensures |r| == |numbers| && forall i :: 0 <= i < |numbers| ==> r[i] == PdfName(numbers[i])
  {
    seq(|numbers|, i requires 0 <= i < |numbers| => PdfName(numbers[i]))
  }

  /** The CSV and PDF files of the same invoices pass the check, whatever
      copies of the CSV files are among them; the common signatures are the
      invoice numbers. */
  lemma PairedFilesAgree(numbers: seq<string>, copies: seq<string>)
    requires forall i :: 0 <= i < |numbers| ==> PlainNumber(numbers[i])
    requires |copies| == |numbers|
    requires forall i :: 0 <= i < |copies| ==> ')' !in copies[i] && '\n' !in copies[i]
    ensures SameInvoice(CsvNames(numbers) + CopyNames(numbers, copies), PdfNames(numbers))
    ensures Signatures(PdfNames(numbers)) == Elems(numbers)
  {
    var csvNames := CsvNames(numbers) + CopyNames(numbers, copies);
    forall i | 0 <= i < |csvNames|
      ensures Sig(csvNames[i]) == (numbers + numbers)[i]
    {
      if i < |numbers| {
        CsvSig(numbers[i]);
      } else {
        var j := i - |numbers|;
        assert csvNames[i] == CsvCopyName(numbers[j], copies[j]);
        CopySig(numbers[j], copies[j]);
      }
    }
    forall i | 0 <= i < |numbers|
      ensures Sig(PdfNames(numbers)[i]) == numbers[i]
    {
      PdfSig(numbers[i]);
    }
    SignaturesOf(csvNames, numbers + numbers);
    SignaturesOf(PdfNames(numbers), numbers);
    assert Elems(numbers + numbers) == Elems(numbers);
  }

  /** A CSV file whose signature no PDF shows stops the batch. */
  lemma UnpairedFileStops(csvNames: seq<string>, pdfNames: seq<string>, i: nat)
    requires i < |csvNames|
    requires forall j :: 0 <= j < |pdfNames| ==> Sig(pdfNames[j]) != Sig(csvNames[i])
    ensures !SameInvoice(csvNames, pdfNames)
  {
    assert Sig(csvNames[i]) in Signatures(csvNames);
  }
}
