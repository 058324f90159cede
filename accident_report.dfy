/**
 * The AccidentReport class of the vehicle accident catalog: its four fields,
 * the validating constructor, the severity order (`operator>`) and the text
 * block that `displayReport` writes.
 */
module Accident {
  import opened Wrappers

  /** The four fields of a report. A value built by NewReport has a positive cost. */
  datatype Report = Report(reportId: string, vehicleNumber: string, location: string, damageCost: int)

  /** The one exception the constructor throws: `invalid_argument`. */
  datatype ReportError = NonPositiveCost

  /** The class invariant the constructor establishes. */
  predicate IsValid(r: Report) {
    r.damageCost > 0
  }

  predicate AllValid(rs: seq<Report>) {
    forall i :: 0 <= i < |rs| ==> IsValid(rs[i])
  }

  /** The constructor: a cost that is not positive throws; otherwise the fields are stored as given. */
  function NewReport(id: string, vnum: string, loc: string, cost: int): (r: Result<Report, ReportError>)
    ensures r.Err? <==> cost <= 0
    ensures r.Ok? ==> IsValid(r.value)
    ensures r.Ok? ==> (r.value.reportId == id && r.value.vehicleNumber == vnum &&
                       r.value.location == loc && r.value.damageCost == cost)
  {
    if cost <= 0 then Err(NonPositiveCost) else Ok(Report(id, vnum, loc, cost))
  }

  /** The default arguments of the constructor. */
  const DefaultId: string := ""
  const DefaultVehicle: string := ""
  const DefaultLocation: string := ""
  const DefaultCost: int := 0

  /** A report built from the default arguments is always rejected. */
  lemma DefaultConstructionFails()
    ensures NewReport(DefaultId, DefaultVehicle, DefaultLocation, DefaultCost) == Err(NonPositiveCost)
  {
  }

  /** `operator>`: strictly greater damage cost. */
  predicate MoreSevere(a: Report, b: Report): (m: bool)
    ensures m ==> a != b
    ensures a.damageCost == b.damageCost ==> !m
  {
    a.damageCost > b.damageCost
  }

  /** `operator>` is a strict order: irreflexive, asymmetric and transitive. */
  lemma MoreSevereIsStrictOrder(a: Report, b: Report, c: Report)
    ensures !MoreSevere(a, a)
    ensures MoreSevere(a, b) ==> !MoreSevere(b, a)
    ensures MoreSevere(a, b) && MoreSevere(b, c) ==> MoreSevere(a, c)
  {
  }

  /** Exactly one of: a above b, b above a, equal costs. */
  lemma SeverityTrichotomy(a: Report, b: Report)
    ensures !(MoreSevere(a, b) && MoreSevere(b, a))
    ensures !MoreSevere(a, b) && !MoreSevere(b, a) <==> a.damageCost == b.damageCost
  {
  }

  // ---------------------------------------------------------------------
  // Decimal text for the cost, shared by the display block and the log line
  // ---------------------------------------------------------------------

  predicate IsDigit(c: char) {
    '0' <= c <= '9'
  }

  predicate AllDigits(s: string) {
    forall i :: 0 <= i < |s| ==> IsDigit(s[i])
  }

  function DigitChar(d: nat): (c: char)
    requires d < 10
    ensures IsDigit(c)
  {
    "0123456789"[d]
  }

  function DigitValue(c: char): (d: nat)
    requires IsDigit(c)
    ensures d < 10
  {
    (c as int) - ('0' as int)
  }

  /** The decimal digits of n, most significant first, without leading zeros. */
  function ShowNat(n: nat): (s: string)
    ensures |s| > 0 && AllDigits(s)
    decreases n
  {
    if n < 10 then [DigitChar(n)] else ShowNat(n / 10) + [DigitChar(n % 10)]
  }

  /** An integer as `operator<<` writes it: a minus sign for a negative value, then the digits. */
  function ShowInt(c: int): string {
    if c < 0 then "-" + ShowNat(-c) else ShowNat(c)
  }

  /** The cost's text is a run of digits, with a minus sign in front when it is negative. */
  lemma ShowIntText(c: int)
    ensures c >= 0 ==> ShowInt(c) != [] && AllDigits(ShowInt(c))
    ensures c < 0 ==> |ShowInt(c)| > 1 && ShowInt(c)[0] == '-' && AllDigits(ShowInt(c)[1..])
    ensures ',' !in ShowInt(c) && '\n' !in ShowInt(c)
  {
    var digits := ShowNat(if c < 0 then -c else c);
    if c < 0 {
      assert ShowInt(c)[1..] == digits;
    }
    assert forall k :: 0 <= k < |ShowInt(c)| ==> ShowInt(c)[k] == '-' || IsDigit(ShowInt(c)[k]);
  }

  /** The value of a string of decimal digits. */
  function DigitsValue(ds: string): nat
    requires AllDigits(ds)
  {
    if ds == [] then 0 else 10 * DigitsValue(ds[..|ds| - 1]) + DigitValue(ds[|ds| - 1])
  }

  lemma {:induction false} DigitValueOfChar(d: nat)
    requires d < 10
    ensures DigitValue(DigitChar(d)) == d
  {
    var digits := "0123456789";
    assert digits[d] == (('0' as int) + d) as char by {
      assert digits[0] == '0' && digits[1] == '1' && digits[2] == '2' && digits[3] == '3' && digits[4] == '4';
      assert digits[5] == '5' && digits[6] == '6' && digits[7] == '7' && digits[8] == '8' && digits[9] == '9';
    }
  }

  /** Reading back the digits ShowNat writes gives the number. */
  lemma {:induction false} ShowNatValue(n: nat)
    ensures DigitsValue(ShowNat(n)) == n
  {
    if n < 10 {
      DigitValueOfChar(n);
    } else {
      var s := ShowNat(n);
      ShowNatValue(n / 10);
      DigitValueOfChar(n % 10);
      assert s[..|s| - 1] == ShowNat(n / 10);
      assert s[|s| - 1] == DigitChar(n % 10);
    }
  }

  // ---------------------------------------------------------------------
  // displayReport
  // ---------------------------------------------------------------------

  const IdLabel: string := "Report ID: "
  const VehicleLabel: string := "Vehicle Number: "
  const LocationLabel: string := "Location: "
  /** The file holds the rupee sign twice encoded; these are the characters it writes. */
  const CostLabel: string := "Damage Cost: \U{00E2}\U{201A}\U{00B9} "
  const Separator: string := "---------------------------"
  const BlockSize: nat := 5

  /** The lines displayReport writes for one report, without their newlines. */
  function DisplayLines(r: Report): (lines: seq<string>)
    ensures |lines| == BlockSize
  {
    [ IdLabel + r.reportId,
      VehicleLabel + r.vehicleNumber,
      LocationLabel + r.location,
      CostLabel + ShowInt(r.damageCost),
      Separator ]
  }
}
