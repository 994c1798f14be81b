/** The pure helpers of the parking service: the two vehicle-category mappers
    and the fee rule. Categories travel as strings: `roda2`/`roda4` at the
    request boundary and in the fee rule, `RODA2`/`RODA4` in the store. */
module ParkingRules {
  import opened Outcomes
  import opened Text

  /** `mapJenisToEnum`: the request form, in any case, to the stored form.
      A missing or empty string, or any other spelling, gives None. */
  function MapJenisToEnum(jenis: Option<string>): (e: Option<string>)
    ensures e == None || e == Some("RODA2") || e == Some("RODA4")
  {
    if jenis.None? || jenis.value == "" then None
    else
      var j := ToLower(jenis.value);
      if j == "roda2" then Some("RODA2")
      else if j == "roda4" then Some("RODA4")
      else None
  }

  /** `enumToSimpleJenis`: the stored form, in any case, back to the form the
      fee rule expects. A missing or empty string, or any other spelling, gives None. */
  function EnumToSimpleJenis(jenis: Option<string>): (s: Option<string>)
    ensures s == None || s == Some("roda2") || s == Some("roda4")
  {
    if jenis.None? || jenis.value == "" then None
    else
      var j := ToUpper(jenis.value);
      if j == "RODA2" then Some("roda2")
      else if j == "RODA4" then Some("roda4")
      else None
  }

  /** `hitungTotal`: the fee for a category in request form and a duration in
      hours. Only the exact strings `roda2` and `roda4` are priced; anything
      else, a missing duration or one below 1 costs 0. */
  function HitungTotal(jenis: Option<string>, durasi: Option<int>): (fee: int)
    ensures fee >= 0
    ensures fee > 0 <==>
      (jenis == Some("roda2") || jenis == Some("roda4")) && durasi.Some? && durasi.value >= 1
  {
    if jenis.None? || jenis.value == "" || durasi.None? || durasi.value < 1 then 0
    else if jenis.value == "roda2" then
      if durasi.value == 1 then 3000 else 3000 + (durasi.value - 1) * 2000
    else if jenis.value == "roda4" then
      if durasi.value == 1 then 6000 else 6000 + (durasi.value - 1) * 4000
    else 0
  }

  /** A category in request form that the fee rule prices. */
  predicate IsSimpleJenis(j: string)
  {
    j == "roda2" || j == "roda4"
  }

  /** A category in the stored form. */
  predicate IsStoredJenis(e: string)
  {
    e == "RODA2" || e == "RODA4"
  }

  /** The case mappings of the four category words. */
  lemma CaseWords()
    ensures ToUpper("roda2") == "RODA2" && ToUpper("roda4") == "RODA4"
    ensures ToUpper("RODA2") == "RODA2" && ToUpper("RODA4") == "RODA4"
    ensures ToLower("RODA2") == "roda2" && ToLower("RODA4") == "roda4"
    ensures ToLower("roda2") == "roda2" && ToLower("roda4") == "roda4"
  {
    assert forall i :: 0 <= i < 5 ==> ToUpper("roda2")[i] == "RODA2"[i];
    assert forall i :: 0 <= i < 5 ==> ToUpper("roda4")[i] == "RODA4"[i];
    assert forall i :: 0 <= i < 5 ==> ToUpper("RODA2")[i] == "RODA2"[i];
    assert forall i :: 0 <= i < 5 ==> ToUpper("RODA4")[i] == "RODA4"[i];
    assert forall i :: 0 <= i < 5 ==> ToLower("RODA2")[i] == "roda2"[i];
    assert forall i :: 0 <= i < 5 ==> ToLower("RODA4")[i] == "roda4"[i];
    assert forall i :: 0 <= i < 5 ==> ToLower("roda2")[i] == "roda2"[i];
    assert forall i :: 0 <= i < 5 ==> ToLower("roda4")[i] == "roda4"[i];
  }

  /** mapJenisToEnum recognises exactly the case-insensitive spellings of
      `roda2` and `roda4`. */
  lemma MapJenisToEnumExactly(x: string)
    ensures MapJenisToEnum(Some(x)) == Some("RODA2") <==> SameIgnoringCase(x, "roda2")
    ensures MapJenisToEnum(Some(x)) == Some("RODA4") <==> SameIgnoringCase(x, "roda4")
    ensures MapJenisToEnum(Some(x)) == None <==>
      !SameIgnoringCase(x, "roda2") && !SameIgnoringCase(x, "roda4")
  {
    ToLowerEqualsIff(x, "roda2");
    ToLowerEqualsIff(x, "roda4");
  }

  /** enumToSimpleJenis recognises exactly the same spellings, so the two
      mappers accept the same strings. */
  lemma EnumToSimpleJenisExactly(x: string)
    ensures EnumToSimpleJenis(Some(x)) == Some("roda2") <==> SameIgnoringCase(x, "roda2")
    ensures EnumToSimpleJenis(Some(x)) == Some("roda4") <==> SameIgnoringCase(x, "roda4")
    ensures EnumToSimpleJenis(Some(x)).None? <==> MapJenisToEnum(Some(x)).None?
  {
    CaseWords();
    ToUpperEqualsIff(x, "roda2");
    ToUpperEqualsIff(x, "roda4");
    MapJenisToEnumExactly(x);
  }

  /** A request-form category that maps comes back, lower-cased, through the
      reverse mapper. */
  lemma SimpleRoundTrip(x: string)
    requires MapJenisToEnum(Some(x)).Some?
    ensures EnumToSimpleJenis(MapJenisToEnum(Some(x))) == Some(ToLower(x))
  {
    CaseWords();
  }

  /** The two request-form categories map to their stored forms and back. */
  lemma SimpleJenisRoundTrip(j: string)
    requires IsSimpleJenis(j)
    ensures MapJenisToEnum(Some(j)) == Some(if j == "roda2" then "RODA2" else "RODA4")
    ensures EnumToSimpleJenis(MapJenisToEnum(Some(j))) == Some(j)
  {
    CaseWords();
  }

  /** Both stored categories survive the trip to request form and back. */
  lemma EnumRoundTrip(e: string)
    requires IsStoredJenis(e)
    ensures EnumToSimpleJenis(Some(e)).Some?
    ensures MapJenisToEnum(EnumToSimpleJenis(Some(e))) == Some(e)
  {
    CaseWords();
  }

  /** For a priced category and at least one hour the fee is the flat first
      hour plus a fixed rate for each further hour; the separate one-hour
      branch agrees with that formula. */
  lemma FeeFormula(d: int)
    requires d >= 1
    ensures HitungTotal(Some("roda2"), Some(d)) == 3000 + (d - 1) * 2000
    ensures HitungTotal(Some("roda4"), Some(d)) == 6000 + (d - 1) * 4000
  {
  }

  /** For a priced category the fee strictly increases with the duration. */
  lemma FeeStrictlyIncreasing(j: string, d1: int, d2: int)
    requires IsSimpleJenis(j)
    requires 1 <= d1 < d2
    ensures HitungTotal(Some(j), Some(d1)) < HitungTotal(Some(j), Some(d2))
  {
    FeeFormula(d1);
    FeeFormula(d2);
  }

  /** The fee is 0 for a missing, empty or unpriced category and for a missing
      duration or one below 1. */
  lemma FeeZero(jenis: Option<string>, durasi: Option<int>)
    ensures jenis.None? || !IsSimpleJenis(jenis.value) ==> HitungTotal(jenis, durasi) == 0
    ensures durasi.None? || durasi.value < 1 ==> HitungTotal(jenis, durasi) == 0
  {
  }
}
