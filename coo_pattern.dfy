// The country-of-origin / weight field of an invoice line, e.g. "/ MX / 2.497 KG".
//
// The analysis searches the field with the case-insensitive pattern
//
//     /\s*([A-Za-z]{2})\s*/\s*([\d.,]+)\s*(KG|KGS|G|GRAMS?)\b
//
// and takes the leftmost match. `IsMatch` states what it means for the
// pattern to match at a position; `MatchAt` is the matcher, which the lemmas
// below prove to find a match exactly where `IsMatch` holds (the match at a
// given position is unique), and `Search` returns the leftmost one.
module CooPattern {
  import opened Text

  predicate IsAsciiLetter(c: char) {
    'A' <= c <= 'Z' || 'a' <= c <= 'z'
  }

  /** The class [\d.,] of the weight group. */
  predicate IsNumeralChar(c: char) {
    IsDigit(c) || c == '.' || c == ','
  }

  /** A character that \w matches. */
  predicate IsWordChar(c: char) {
    IsAsciiLetter(c) || IsDigit(c) || c == '_'
  }

  /** \b right after a unit: the unit ends in a letter, so the boundary holds
      at the end of the text or before a character that is not a word character. */
  predicate BoundaryAt(s: string, e: nat)
    requires e <= |s|
  {
    e == |s| || !IsWordChar(s[e])
  }

  predicate SpacesBetween(s: string, i: nat, j: nat)
    requires i <= j <= |s|
  {
    forall k :: i <= k < j ==> IsSpace(s[k])
  }

  predicate NumeralBetween(s: string, i: nat, j: nat)
    requires i <= j <= |s|
  {
    forall k :: i <= k < j ==> IsNumeralChar(s[k])
  }

  /** The end of the longest run of whitespace starting at i (what a greedy \s* consumes). */
  function SkipSpaces(s: string, i: nat): (j: nat)
    requires i <= |s|
    ensures i <= j <= |s| && SpacesBetween(s, i, j)
    ensures j == |s| || !IsSpace(s[j])
    decreases |s| - i
  {
    if i < |s| && IsSpace(s[i]) then SkipSpaces(s, i + 1) else i
  }

  /** The end of the longest run of [\d.,] starting at i. */
  function SkipNumeral(s: string, i: nat): (j: nat)
    requires i <= |s|
    ensures i <= j <= |s| && NumeralBetween(s, i, j)
    ensures j == |s| || !IsNumeralChar(s[j])
    decreases |s| - i
  {
    if i < |s| && IsNumeralChar(s[i]) then SkipNumeral(s, i + 1) else i
  }

  lemma {:induction false} SkipSpacesUnique(s: string, i: nat, j: nat)
    requires i <= j < |s| && SpacesBetween(s, i, j) && !IsSpace(s[j])
    ensures SkipSpaces(s, i) == j
    decreases j - i
  {
    if i < j {
      SkipSpacesUnique(s, i + 1, j);
    }
  }

  lemma {:induction false} SkipNumeralUnique(s: string, i: nat, j: nat)
    requires i <= j < |s| && NumeralBetween(s, i, j) && !IsNumeralChar(s[j])
    ensures SkipNumeral(s, i) == j
    decreases j - i
  {
    if i < j {
      SkipNumeralUnique(s, i + 1, j);
    }
  }

  /** The unit spellings the pattern accepts, upper-cased. */
  const Units: set<string> := {"KG", "KGS", "G", "GRAM", "GRAMS"}

  /** The characters at u spell w, ignoring the case of ASCII letters. */
  predicate SpellsAt(s: string, u: nat, w: string) {
    u + |w| <= |s| && forall k :: 0 <= k < |w| ==> UpperChar(s[u + k]) == w[k]
  }

  /** The alternation (KG|KGS|G|GRAMS?)\b, tried in the pattern's order; the end
      of the unit, or None. */
  function UnitEnd(s: string, u: nat): Option<nat>
    requires u <= |s|
  {
    if SpellsAt(s, u, "KG") && BoundaryAt(s, u + 2) then Some(u + 2)
    else if SpellsAt(s, u, "KGS") && BoundaryAt(s, u + 3) then Some(u + 3)
    else if SpellsAt(s, u, "G") && BoundaryAt(s, u + 1) then Some(u + 1)
    else if SpellsAt(s, u, "GRAMS") && BoundaryAt(s, u + 5) then Some(u + 5)
    else if SpellsAt(s, u, "GRAM") && BoundaryAt(s, u + 4) then Some(u + 4)
    else None
  }

  lemma SpellsIffUpper(s: string, u: nat, e: nat, w: string)
    requires u <= e <= |s|
    ensures (e == u + |w| && SpellsAt(s, u, w)) <==> Upper(s[u..e]) == w
  {
    if Upper(s[u..e]) == w {
      assert forall k :: 0 <= k < |w| ==> s[u..e][k] == s[u + k];
    }
    if e == u + |w| && SpellsAt(s, u, w) {
      assert forall k :: 0 <= k < |w| ==> Upper(s[u..e])[k] == w[k];
    }
  }

  /** A character whose upper-case form is a letter is a word character. */
  lemma UpperLetterIsWordChar(c: char)
    requires 'A' <= UpperChar(c) <= 'Z'
    ensures IsWordChar(c) && !IsSpace(c) && !IsNumeralChar(c)
  {
  }

  /** A character \w does not match is not a letter in either case. */
  lemma NonWordCharUpper(c: char)
    requires !IsWordChar(c)
    ensures !('A' <= UpperChar(c) <= 'Z')
  {
  }

  lemma NotSpells(s: string, u: nat, w: string, k: nat)
    requires k < |w| && u + k < |s| && UpperChar(s[u + k]) != w[k]
    ensures !SpellsAt(s, u, w)
  {
  }

  /** The alternation finds a unit exactly where one of the accepted spellings
      is followed by a word boundary. */
  lemma UnitEndSpec(s: string, u: nat, e: nat)
    requires u <= e <= |s|
    ensures UnitEnd(s, u) == Some(e) <==> Upper(s[u..e]) in Units && BoundaryAt(s, e)
  {
    SpellsIffUpper(s, u, e, "KG");
    SpellsIffUpper(s, u, e, "KGS");
    SpellsIffUpper(s, u, e, "G");
    SpellsIffUpper(s, u, e, "GRAMS");
    SpellsIffUpper(s, u, e, "GRAM");
    var w := Upper(s[u..e]);
    if UnitEnd(s, u) == Some(e) {
      assert w in Units;
    }
    if w in Units && BoundaryAt(s, e) {
      if w == "KG" {
        assert SpellsAt(s, u, "KG");
      } else if w == "KGS" {
        assert UpperChar(s[u + 2]) == 'S';
        UpperLetterIsWordChar(s[u + 2]);
        assert !BoundaryAt(s, u + 2);
        assert SpellsAt(s, u, "KGS");
      } else {
        assert UpperChar(s[u]) == 'G';
        NotSpells(s, u, "KG", 0);
        NotSpells(s, u, "KGS", 0);
        if w == "G" {
          assert SpellsAt(s, u, "G");
        } else {
          assert UpperChar(s[u + 1]) == 'R';
          UpperLetterIsWordChar(s[u + 1]);
          assert !BoundaryAt(s, u + 1);
          if w == "GRAMS" {
            assert SpellsAt(s, u, "GRAMS");
          } else {
            assert w == "GRAM" && e == u + 4;
            if u + 4 < |s| {
              NonWordCharUpper(s[u + 4]);
              NotSpells(s, u, "GRAMS", 4);
            }
            assert SpellsAt(s, u, "GRAM");
          }
        }
      }
    }
  }

  /** A unit starts with K or G (in either case). */
  lemma UnitStart(s: string, u: nat, e: nat)
    requires u <= e <= |s| && Upper(s[u..e]) in Units
    ensures u < e && (UpperChar(s[u]) == 'K' || UpperChar(s[u]) == 'G')
    ensures !IsSpace(s[u]) && !IsNumeralChar(s[u])
  {
    var w := Upper(s[u..e]);
    assert w[0] == UpperChar(s[u]);
    UpperLetterIsWordChar(s[u]);
  }

  /** Where the groups of one match lie in the searched text. */
  datatype CooMatch = CooMatch(
    slash: nat,        // the leading "/"
    code: nat,         // the two-letter country code
    slash2: nat,       // the "/" after the code
    weightStart: nat,  // the [\d.,]+ group
    weightEnd: nat,
    unitStart: nat,    // the unit group
    unitEnd: nat)

  /** The pattern matches s at m.slash with its groups where m puts them. */
  predicate IsMatch(s: string, m: CooMatch) {
    && m.slash < m.code && m.code + 2 <= m.slash2 < m.weightStart < m.weightEnd
    && m.weightEnd <= m.unitStart < m.unitEnd <= |s|
    && s[m.slash] == '/'
    && SpacesBetween(s, m.slash + 1, m.code)
    && IsAsciiLetter(s[m.code]) && IsAsciiLetter(s[m.code + 1])
    && SpacesBetween(s, m.code + 2, m.slash2)
    && s[m.slash2] == '/'
    && SpacesBetween(s, m.slash2 + 1, m.weightStart)
    && NumeralBetween(s, m.weightStart, m.weightEnd)
    && SpacesBetween(s, m.weightEnd, m.unitStart)
    && Upper(s[m.unitStart..m.unitEnd]) in Units
    && BoundaryAt(s, m.unitEnd)
  }

  /** The matcher anchored at p, one group after the other; every \s* is
      greedy and the weight group takes the longest run, which is the only
      choice that can succeed. */
  function MatchAt(s: string, p: nat): (r: Option<CooMatch>)
    ensures r.Some? ==> r.value.slash == p
  {
    if p < |s| && s[p] == '/' then MatchFromCode(s, p, SkipSpaces(s, p + 1)) else None
  }

  function MatchFromCode(s: string, p: nat, c: nat): (r: Option<CooMatch>)
    requires c <= |s|
    ensures r.Some? ==> r.value.slash == p && r.value.code == c
  {
    if c + 2 <= |s| && IsAsciiLetter(s[c]) && IsAsciiLetter(s[c + 1])
    then MatchFromSlash(s, p, c, SkipSpaces(s, c + 2))
    else None
  }

  function MatchFromSlash(s: string, p: nat, c: nat, q: nat): (r: Option<CooMatch>)
    requires q <= |s|
    ensures r.Some? ==> r.value.slash == p && r.value.code == c && r.value.slash2 == q
  {
    if q < |s| && s[q] == '/' then MatchFromWeight(s, p, c, q, SkipSpaces(s, q + 1)) else None
  }

  function MatchFromWeight(s: string, p: nat, c: nat, q: nat, w0: nat): (r: Option<CooMatch>)
    requires w0 <= |s|
    ensures r.Some? ==> r.value.slash == p && r.value.code == c && r.value.slash2 == q
  {
    var w1 := SkipNumeral(s, w0);
    if w1 == w0 then None else MatchFromUnit(s, p, c, q, w0, w1, SkipSpaces(s, w1))
  }

  function MatchFromUnit(s: string, p: nat, c: nat, q: nat, w0: nat, w1: nat, u: nat): (r: Option<CooMatch>)
    requires u <= |s|
    ensures r.Some? ==> r.value.slash == p && r.value.code == c && r.value.slash2 == q
  {
    match UnitEnd(s, u)
    case None => None
    case Some(e) => Some(CooMatch(p, c, q, w0, w1, u, e))
  }

  /** Whatever the matcher returns is a match at p. */
  lemma MatchAtSound(s: string, p: nat)
    requires MatchAt(s, p).Some?
    ensures IsMatch(s, MatchAt(s, p).value) && MatchAt(s, p).value.slash == p
  {
    MatchFromCodeSound(s, p, SkipSpaces(s, p + 1));
  }

  /** The part of a match from the country code on. */
  lemma MatchFromCodeSound(s: string, p: nat, c: nat)
    requires c <= |s| && MatchFromCode(s, p, c).Some?
    ensures var m := MatchFromCode(s, p, c).value;
            && m.slash == p && m.code == c && c + 2 <= m.slash2 < m.weightStart < m.weightEnd
            && m.weightEnd <= m.unitStart < m.unitEnd <= |s|
            && IsAsciiLetter(s[c]) && IsAsciiLetter(s[c + 1])
            && SpacesBetween(s, c + 2, m.slash2) && s[m.slash2] == '/'
            && SpacesBetween(s, m.slash2 + 1, m.weightStart)
            && NumeralBetween(s, m.weightStart, m.weightEnd) && SpacesBetween(s, m.weightEnd, m.unitStart)
            && Upper(s[m.unitStart..m.unitEnd]) in Units && BoundaryAt(s, m.unitEnd)
  {
    MatchFromSlashSound(s, p, c, SkipSpaces(s, c + 2));
  }

  /** The part of a match from the second "/" on. */
  lemma MatchFromSlashSound(s: string, p: nat, c: nat, q: nat)
    requires q <= |s| && MatchFromSlash(s, p, c, q).Some?
    ensures var m := MatchFromSlash(s, p, c, q).value;
            && m.slash == p && m.code == c && m.slash2 == q && q < m.weightStart < m.weightEnd
            && m.weightEnd <= m.unitStart < m.unitEnd <= |s|
            && s[q] == '/' && SpacesBetween(s, q + 1, m.weightStart)
            && NumeralBetween(s, m.weightStart, m.weightEnd) && SpacesBetween(s, m.weightEnd, m.unitStart)
            && Upper(s[m.unitStart..m.unitEnd]) in Units && BoundaryAt(s, m.unitEnd)
  {
    MatchFromWeightSound(s, p, c, q, SkipSpaces(s, q + 1));
  }

  /** The part of a match from the weight group on. */
  lemma MatchFromWeightSound(s: string, p: nat, c: nat, q: nat, w0: nat)
    requires w0 <= |s| && MatchFromWeight(s, p, c, q, w0).Some?
    ensures var m := MatchFromWeight(s, p, c, q, w0).value;
            && m.slash == p && m.code == c && m.slash2 == q && m.weightStart == w0
            && w0 < m.weightEnd <= m.unitStart < m.unitEnd <= |s|
            && NumeralBetween(s, w0, m.weightEnd) && SpacesBetween(s, m.weightEnd, m.unitStart)
            && Upper(s[m.unitStart..m.unitEnd]) in Units && BoundaryAt(s, m.unitEnd)
  {
    var w1 := SkipNumeral(s, w0);
    var u := SkipSpaces(s, w1);
    var e := UnitEnd(s, u).value;
    assert MatchFromWeight(s, p, c, q, w0) == Some(CooMatch(p, c, q, w0, w1, u, e));
    UnitEndSpec(s, u, e);
  }

  /** The unit of a match is found by the alternation, and it does not
      start with a space or a numeral character. */
  lemma UnitOfMatch(s: string, u: nat, e: nat)
    requires u <= e <= |s| && Upper(s[u..e]) in Units && BoundaryAt(s, e)
    ensures UnitEnd(s, u) == Some(e)
    ensures u < |s| && !IsSpace(s[u]) && !IsNumeralChar(s[u])
  {
    UnitStart(s, u, e);
    UnitEndSpec(s, u, e);
  }

  lemma MatchFromWeightOf(s: string, m: CooMatch)
    requires IsMatch(s, m)
    ensures MatchFromWeight(s, m.slash, m.code, m.slash2, m.weightStart) == Some(m)
  {
    UnitOfMatch(s, m.unitStart, m.unitEnd);
    SkipNumeralUnique(s, m.weightStart, m.weightEnd);
    SkipSpacesUnique(s, m.weightEnd, m.unitStart);
  }

  lemma MatchFromSlashStep(s: string, p: nat, c: nat, q: nat, w0: nat, r: Option<CooMatch>)
    requires q < |s| && s[q] == '/' && SkipSpaces(s, q + 1) == w0
    requires MatchFromWeight(s, p, c, q, w0) == r
    ensures MatchFromSlash(s, p, c, q) == r
  {
  }

  lemma MatchFromCodeStep(s: string, p: nat, c: nat, q: nat, r: Option<CooMatch>)
    requires c + 2 <= |s| && IsAsciiLetter(s[c]) && IsAsciiLetter(s[c + 1]) && SkipSpaces(s, c + 2) == q
    requires MatchFromSlash(s, p, c, q) == r
    ensures MatchFromCode(s, p, c) == r
  {
  }

  lemma MatchAtStep(s: string, p: nat, c: nat, r: Option<CooMatch>)
    requires p < |s| && s[p] == '/' && SkipSpaces(s, p + 1) == c
    requires MatchFromCode(s, p, c) == r
    ensures MatchAt(s, p) == r
  {
  }

  /** Letters, numeral characters and "/" are not whitespace. */
  lemma NotSpace(c: char)
    requires IsAsciiLetter(c) || IsNumeralChar(c) || c == '/'
    ensures !IsSpace(c)
  {
  }

  /** Every match at a position is the one the matcher returns there: the
      matcher misses none, and the match at a position is unique. */
  lemma MatchAtComplete(s: string, m: CooMatch)
    requires IsMatch(s, m)
    ensures MatchAt(s, m.slash) == Some(m)
  {
    MatchFromCodeOf(s, m);
    NotSpace(s[m.code]);
    SkipSpacesUnique(s, m.slash + 1, m.code);
    MatchAtStep(s, m.slash, m.code, Some(m));
  }

  lemma MatchFromCodeOf(s: string, m: CooMatch)
    requires IsMatch(s, m)
    ensures MatchFromCode(s, m.slash, m.code) == Some(m)
  {
    MatchFromSlashOf(s, m);
    NotSpace(s[m.slash2]);
    SkipSpacesUnique(s, m.code + 2, m.slash2);
    MatchFromCodeStep(s, m.slash, m.code, m.slash2, Some(m));
  }

  lemma MatchFromSlashOf(s: string, m: CooMatch)
    requires IsMatch(s, m)
    ensures MatchFromSlash(s, m.slash, m.code, m.slash2) == Some(m)
  {
    MatchFromWeightOf(s, m);
    NotSpace(s[m.weightStart]);
    SkipSpacesUnique(s, m.slash2 + 1, m.weightStart);
    MatchFromSlashStep(s, m.slash, m.code, m.slash2, m.weightStart, Some(m));
  }

  /** re.search: the match at the smallest position at or after p. */
  function SearchFrom(s: string, p: nat): (r: Option<CooMatch>)
    decreases |s| - p
  {
    if p >= |s| then None
    else if MatchAt(s, p).Some? then MatchAt(s, p)
    else SearchFrom(s, p + 1)
  }

  /** re.search: nothing exactly when the pattern matches nowhere in s, and
      otherwise the leftmost match (any other match starts further right). */
  function Search(s: string): (r: Option<CooMatch>)
    ensures r.None? <==> forall m :: !IsMatch(s, m)
    ensures r.Some? ==> && IsMatch(s, r.value)
                        && forall m :: IsMatch(s, m) ==> m == r.value || r.value.slash < m.slash
  {
    SearchLeftmost(s);
    SearchFrom(s, 0)
  }

  lemma {:induction false} SearchFromSome(s: string, p: nat)
    requires SearchFrom(s, p).Some?
    ensures p <= SearchFrom(s, p).value.slash
    ensures MatchAt(s, SearchFrom(s, p).value.slash) == SearchFrom(s, p)
    decreases |s| - p
  {
    if MatchAt(s, p).None? {
      SearchFromSome(s, p + 1);
    }
  }

  /** The scan passes no position where the matcher succeeds. */
  lemma {:induction false} SearchFromSkips(s: string, p: nat, q: nat)
    requires SearchFrom(s, p).Some? && p <= q < SearchFrom(s, p).value.slash
    ensures MatchAt(s, q).None?
    decreases q - p
  {
    if q > p {
      assert SearchFrom(s, p) == SearchFrom(s, p + 1);
      SearchFromSkips(s, p + 1, q);
    }
  }

  /** A scan that finds nothing passed no position where the matcher succeeds. */
  lemma {:induction false} SearchFromNone(s: string, p: nat, q: nat)
    requires SearchFrom(s, p).None? && p <= q
    ensures MatchAt(s, q).None?
    decreases q - p
  {
    if q > p {
      assert SearchFrom(s, p) == SearchFrom(s, p + 1);
      SearchFromNone(s, p + 1, q);
    }
  }

  /** The scan from position 0 finds a match when the pattern matches
      anywhere, and then the leftmost one. */
  lemma SearchLeftmost(s: string)
    ensures SearchFrom(s, 0).None? <==> forall m :: !IsMatch(s, m)
    ensures SearchFrom(s, 0).Some? ==>
              && IsMatch(s, SearchFrom(s, 0).value)
              && forall m :: IsMatch(s, m) ==> m == SearchFrom(s, 0).value || SearchFrom(s, 0).value.slash < m.slash
  {
    if SearchFrom(s, 0).None? {
      NothingFound(s);
    } else {
      LeftmostFound(s);
    }
  }

  lemma NothingFound(s: string)
    requires SearchFrom(s, 0).None?
    ensures forall m :: !IsMatch(s, m)
  {
    forall m | IsMatch(s, m)
      ensures false
    {
      MatchAtComplete(s, m);
      SearchFromNone(s, 0, m.slash);
    }
  }

  lemma LeftmostFound(s: string)
    requires SearchFrom(s, 0).Some?
    ensures IsMatch(s, SearchFrom(s, 0).value)
    ensures forall m :: IsMatch(s, m) ==> m == SearchFrom(s, 0).value || SearchFrom(s, 0).value.slash < m.slash
  {
    var r := SearchFrom(s, 0).value;
    SearchFromSome(s, 0);
    MatchAtSound(s, r.slash);
    forall m | IsMatch(s, m)
      ensures m == r || r.slash < m.slash
    {
      FoundBefore(s, m);
    }
  }

  lemma FoundBefore(s: string, m: CooMatch)
    requires SearchFrom(s, 0).Some? && IsMatch(s, m)
    ensures m == SearchFrom(s, 0).value || SearchFrom(s, 0).value.slash < m.slash
  {
    var r := SearchFrom(s, 0).value;
    SearchFromSome(s, 0);
    MatchAtComplete(s, m);
    if m.slash < r.slash {
      SearchFromSkips(s, 0, m.slash);
    }
  }

  /** The match Search returns is the one that starts first. */
  lemma LeftmostIsFound(s: string, m: CooMatch)
    requires IsMatch(s, m) && forall m' :: IsMatch(s, m') ==> m.slash <= m'.slash
    ensures Search(s) == Some(m)
  {
    assert m.slash <= Search(s).value.slash;
  }

  // ---------------------------------------------------------------------
  // The groups of a match and the weight in kilograms
  // ---------------------------------------------------------------------

  /** match.group("coo").strip().upper() */
  function CodeOf(s: string, m: CooMatch): (code: string)
    requires IsMatch(s, m)
    ensures |code| == 2 && 'A' <= code[0] <= 'Z' && 'A' <= code[1] <= 'Z'
  {
    Upper(s[m.code..m.code + 2])
  }

  /** match.group("weight") */
  function WeightTextOf(s: string, m: CooMatch): string
    requires IsMatch(s, m)
  {
    s[m.weightStart..m.weightEnd]
  }

  /** match.group("unit").strip().upper() */
  function UnitOf(s: string, m: CooMatch): (unit: string)
    requires IsMatch(s, m)
    ensures unit in Units
  {
    Upper(s[m.unitStart..m.unitEnd])
  }

  /** s.replace(",", "") */
  function RemoveCommas(s: string): (r: string)
    ensures ',' !in r
  {
    if s == [] then []
    else if s[0] == ',' then RemoveCommas(s[1..])
    else [s[0]] + RemoveCommas(s[1..])
  }

  /** What Python's float() accepts among strings of digits and dots: at most
      one dot and at least one digit. */
  predicate IsFloatLiteral(t: string) {
    && (forall i :: 0 <= i < |t| ==> IsDigit(t[i]) || t[i] == '.')
    && (forall i, j :: 0 <= i < j < |t| && t[i] == '.' ==> t[j] != '.')
    && (exists i :: 0 <= i < |t| && IsDigit(t[i]))
  }

  /** The digits of t with the dot left out. */
  function DigitsOf(t: string): (d: string)
    ensures forall i :: 0 <= i < |d| ==> IsDigit(d[i])
  {
    if t == [] then []
    else if IsDigit(t[0]) then [t[0]] + DigitsOf(t[1..])
    else DigitsOf(t[1..])
  }

  /** The number of characters after the first dot (0 without a dot). */
  function FractionLength(t: string): nat {
    if t == [] then 0
    else if t[0] == '.' then |t| - 1
    else FractionLength(t[1..])
  }

  function Pow10(n: nat): (p: nat)
    ensures p >= 1
  {
    if n == 0 then 1 else 10 * Pow10(n - 1)
  }

  /** The exact value of a decimal literal: its digits as an integer, scaled
      down by the number of digits after the dot. */
  function DecimalValue(t: string): real {
    DigitsValue(DigitsOf(t)) as real / Pow10(FractionLength(t)) as real
  }

  predicate AllDigits(t: string) {
    forall i :: 0 <= i < |t| ==> IsDigit(t[i])
  }

  lemma {:induction false} DigitsOfDigits(a: string)
    requires AllDigits(a)
    ensures DigitsOf(a) == a
  {
    if a != [] {
      DigitsOfDigits(a[1..]);
    }
  }

  lemma {:induction false} DigitsOfAppend(a: string, b: string)
    ensures DigitsOf(a + b) == DigitsOf(a) + DigitsOf(b)
  {
    if a != [] {
      assert (a + b)[1..] == a[1..] + b;
      DigitsOfAppend(a[1..], b);
    } else {
      assert a + b == b;
    }
  }

  lemma {:induction false} FractionLengthOfPoint(a: string, b: string)
    requires AllDigits(a)
    ensures FractionLength(a + "." + b) == |b|
  {
    if a != [] {
      assert (a + "." + b)[1..] == a[1..] + "." + b;
      FractionLengthOfPoint(a[1..], b);
    }
  }

  lemma {:induction false} FractionLengthOfDigits(a: string)
    requires AllDigits(a)
    ensures FractionLength(a) == 0
  {
    if a != [] {
      FractionLengthOfDigits(a[1..]);
    }
  }

  lemma AllDigitsAppend(a: string, b: string)
    requires AllDigits(a) && AllDigits(b)
    ensures AllDigits(a + b)
  {
    forall i | 0 <= i < |a + b|
      ensures IsDigit((a + b)[i])
    {
      if i < |a| {
        assert (a + b)[i] == a[i];
      } else {
        assert (a + b)[i] == b[i - |a|];
      }
    }
  }

  lemma ShiftDigit(x: int, p: int, y: int, z: int)
    ensures 10 * (x * p + y) + z == x * (10 * p) + (10 * y + z)
  {
  }

  lemma {:induction false} DigitsValueAppend(a: string, b: string)
    requires AllDigits(a) && AllDigits(b)
    ensures AllDigits(a + b)
    ensures DigitsValue(a + b) == DigitsValue(a) * Pow10(|b|) + DigitsValue(b)
    decreases |b|
  {
    AllDigitsAppend(a, b);
    if b == [] {
      assert a + b == a;
    } else {
      var b' := b[..|b| - 1];
      var d := b[|b| - 1] as int - '0' as int;
      assert AllDigits(b');
      DigitsValueAppend(a, b');
      var ab := a + b;
      assert ab[..|ab| - 1] == a + b';
      assert ab[|ab| - 1] == b[|b| - 1];
      assert DigitsValue(ab) == 10 * DigitsValue(a + b') + d;
      assert DigitsValue(b) == 10 * DigitsValue(b') + d;
      assert Pow10(|b|) == 10 * Pow10(|b'|);
      ShiftDigit(DigitsValue(a), Pow10(|b'|), DigitsValue(b'), d);
    }
  }

  /** A literal without a dot is the integer its digits spell. */
  lemma WholeNumberValue(a: string)
    requires AllDigits(a)
    ensures DecimalValue(a) == DigitsValue(a) as real
  {
    DigitsOfDigits(a);
    FractionLengthOfDigits(a);
  }

  lemma DigitsOfPoint(a: string, b: string)
    requires AllDigits(a) && AllDigits(b)
    ensures DigitsOf(a + "." + b) == a + b
  {
    var t := "." + b;
    assert DigitsOf(t) == DigitsOf(b) by {
      assert !IsDigit(t[0]) && t[1..] == b;
    }
    DigitsOfAppend(a, t);
    DigitsOfDigits(a);
    DigitsOfDigits(b);
    assert a + "." + b == a + t;
  }

  /** n / p == x + y / p when n == x * p + y, over the reals. */
  lemma ScaleDown(n: int, x: int, p: int, y: int)
    requires p > 0 && n == x * p + y
    ensures n as real / p as real == x as real + y as real / p as real
  {
    assert n as real == x as real * p as real + y as real;
  }

  lemma PointDigits(a: string, b: string)
    requires AllDigits(a) && AllDigits(b)
    ensures AllDigits(a + b)
    ensures DecimalValue(a + "." + b) == DigitsValue(a + b) as real / Pow10(|b|) as real
  {
    AllDigitsAppend(a, b);
    DigitsOfPoint(a, b);
    FractionLengthOfPoint(a, b);
  }

  /** A literal "a.b" is the integer a plus the fraction b / 10^|b|. */
  lemma PointValue(a: string, b: string)
    requires AllDigits(a) && AllDigits(b)
    ensures DecimalValue(a + "." + b) == DigitsValue(a) as real + DigitsValue(b) as real / Pow10(|b|) as real
  {
    PointDigits(a, b);
    DigitsValueAppend(a, b);
    ScaleDown(DigitsValue(a + b), DigitsValue(a), Pow10(|b|), DigitsValue(b));
  }

  /** The weight in kilograms: float() of the numeral without commas (0 when
      float() rejects it), divided by 1000 when the unit starts with "G". */
  function WeightKg(weightText: string, unit: string): (kg: real)
    ensures kg >= 0.0
  {
    var t := RemoveCommas(weightText);
    if !IsFloatLiteral(t) then 0.0
    else if StartsWith(unit, "G") then DecimalValue(t) / 1000.0
    else DecimalValue(t)
  }

  lemma KiloIsNotGram(unit: string)
    requires |unit| >= 1 && unit[0] == 'K'
    ensures !StartsWith(unit, "G")
  {
    assert unit[..1][0] == 'K';
  }

  /** Grams are converted to kilograms; KG and KGS are taken as they are. */
  lemma UnitConversion(weightText: string, unit: string)
    requires unit in Units
    requires IsFloatLiteral(RemoveCommas(weightText))
    ensures unit in {"G", "GRAM", "GRAMS"} ==> WeightKg(weightText, unit) == DecimalValue(RemoveCommas(weightText)) / 1000.0
    ensures unit in {"KG", "KGS"} ==> WeightKg(weightText, unit) == DecimalValue(RemoveCommas(weightText))
  {
    if unit[0] == 'K' {
      KiloIsNotGram(unit);
    }
  }

  /** "1.2.3" and "." are not numbers to float(), so their weight is 0. */
  lemma MalformedNumeralWeighsNothing(unit: string)
    ensures WeightKg("1.2.3", unit) == 0.0
    ensures WeightKg(".", unit) == 0.0
    ensures WeightKg(",,", unit) == 0.0
  {
    assert RemoveCommas("1.2.3") == "1.2.3";
    assert "1.2.3"[1] == '.' && "1.2.3"[3] == '.';
    assert RemoveCommas(".") == ".";
    assert RemoveCommas(",,") == "";
  }

  lemma {:induction false} RemoveCommasAbsent(t: string)
    requires ',' !in t
    ensures RemoveCommas(t) == t
  {
    if t != [] {
      assert t[0] != ',' && ',' !in t[1..];
      RemoveCommasAbsent(t[1..]);
    }
  }

  /** A non-empty run of digits is something float() accepts. */
  lemma DigitsAreFloat(t: string)
    requires AllDigits(t) && t != []
    ensures IsFloatLiteral(t) && ',' !in t
  {
    assert IsDigit(t[0]);
  }

  /** "a.b" with digit runs a and b, not both empty, is something float() accepts. */
  lemma PointIsFloat(a: string, b: string)
    requires AllDigits(a) && AllDigits(b) && a != []
    ensures IsFloatLiteral(a + "." + b) && ',' !in a + "." + b
  {
    var t := a + "." + b;
    assert forall i :: 0 <= i < |t| ==> t[i] == if i < |a| then a[i] else if i == |a| then '.' else b[i - |a| - 1];
    assert IsDigit(t[0]);
  }

  /** "/ MX / 2500 G" weighs 2.5 kg. */
  lemma GramsExample()
    ensures WeightKg("2500", "G") == 2.5
  {
    DigitsAreFloat("2500");
    RemoveCommasAbsent("2500");
    WholeNumberValue("2500");
    assert DigitsValue("2500") == 2500 by {
      assert "2500"[..3] == "250" && "250"[..2] == "25" && "25"[..1] == "2" && "2"[..0] == "";
    }
  }

  /** "/ PL / 10 KG" weighs 10 kg. */
  lemma KilogramsExample()
    ensures WeightKg("10", "KG") == 10.0
  {
    DigitsAreFloat("10");
    RemoveCommasAbsent("10");
    WholeNumberValue("10");
    assert DigitsValue("10") == 10 by {
      assert "10"[..1] == "1" && "1"[..0] == "";
    }
    KiloIsNotGram("KG");
  }

  lemma SeparatorText()
    ensures RemoveCommas("1,234.5") == "1234" + "." + "5"
  {
    assert "1,234.5"[1..] == ",234.5";
    assert ",234.5"[1..] == "234.5";
    RemoveCommasAbsent("234.5");
  }

  lemma SeparatorValue()
    ensures IsFloatLiteral("1234" + "." + "5")
    ensures DecimalValue("1234" + "." + "5") == 1234.5
  {
    PointIsFloat("1234", "5");
    PointValue("1234", "5");
    assert DigitsValue("1234") == 1234 by {
      assert "1234"[..3] == "123" && "123"[..2] == "12" && "12"[..1] == "1" && "1"[..0] == "";
    }
    assert DigitsValue("5") == 5 by {
      assert "5"[..0] == "";
    }
  }

  /** Thousands separators are dropped: "1,234.5 KGS" weighs 1234.5 kg. */
  lemma SeparatorExample()
    ensures WeightKg("1,234.5", "KGS") == 1234.5
  {
    SeparatorText();
    SeparatorValue();
    KiloIsNotGram("KGS");
  }
}
