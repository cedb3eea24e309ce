/**
 * Country classification: the fixed set of the 27 EU member states'
 * ISO 3166-1 alpha-2 codes, the name lookup with its "KR" override, and the
 * second override table the invoice analysis puts on top of it.
 *
 * The ISO 3166 name table is a parameter `iso` (alpha-2 code to country
 * name); which codes it holds is outside the model.
 */
module Country {
  import opened Text

  /** The EU member states (no United Kingdom, no EFTA states). */
  const EuCodes: set<string> := {
    "AT", "BE", "BG", "HR", "CY", "CZ", "DK", "EE", "FI", "FR", "DE", "GR", "HU", "IE",
    "IT", "LV", "LT", "LU", "MT", "NL", "PL", "PT", "RO", "SK", "SI", "ES", "SE"
  }

  predicate IsEu(code: string) {
    code in EuCodes
  }

  predicate IsUpperCode(code: string) {
    |code| == 2 && 'A' <= code[0] <= 'Z' && 'A' <= code[1] <= 'Z'
  }

  /** Every code in the set is two upper-case letters, so a lower-case or
      malformed code is never classified EU. */
  lemma EuCodesAreUpper()
    ensures forall c :: c in EuCodes ==> IsUpperCode(c)
  {
  }

  /** The United Kingdom and the EFTA states are outside the set. */
  lemma NonMembers()
    ensures "GB" !in EuCodes && "UK" !in EuCodes && "CH" !in EuCodes && "NO" !in EuCodes
    ensures "IS" !in EuCodes && "LI" !in EuCodes
  {
  }

  /** get_country_name: "KR" (any case) is the Republic of Korea; otherwise the
      name the ISO table gives the upper-cased code; failing that, the code as given. */
  function CountryName(code: string, iso: map<string, string>): (name: string)
    ensures Upper(code) == "KR" ==> name == "Republic of Korea"
    ensures Upper(code) != "KR" && Upper(code) in iso ==> name == iso[Upper(code)]
    ensures Upper(code) != "KR" && Upper(code) !in iso ==> name == code
  {
    var upper := Upper(code);
    if upper == "KR" then "Republic of Korea"
    else if upper in iso then iso[upper]
    else code
  }

  /** The name analyze_invoice gives an (already upper-cased) code: Mexico,
      Malaysia and Poland from its own table, Korea from its special names,
      and get_country_name for every other code. */
  function InvoiceCountryName(coo: string, iso: map<string, string>): string {
    if coo == "MX" then "Mexico"
    else if coo == "MY" then "Malaysia"
    else if coo == "PL" then "Poland"
    else if coo == "KR" then "Republic of Korea"
    else CountryName(coo, iso)
  }

  /** The two override tables do not disagree with the lookup for Korea, and a
      code that neither table nor the ISO table knows is named by itself. */
  lemma InvoiceCountryNameSpec(coo: string, iso: map<string, string>)
    requires IsUpperCode(coo)
    ensures coo == "KR" ==> InvoiceCountryName(coo, iso) == CountryName(coo, iso)
    ensures coo !in {"MX", "MY", "PL", "KR"} ==> InvoiceCountryName(coo, iso) == CountryName(coo, iso)
    ensures coo !in {"MX", "MY", "PL", "KR"} && coo !in iso ==> InvoiceCountryName(coo, iso) == coo
  {
    assert Upper(coo) == coo;
  }
}
