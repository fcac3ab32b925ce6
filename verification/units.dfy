/** Unit conversion and unit-text parsing (library.py). */
module Units {
  import opened Wrappers
  import opened Hole

  datatype UnitError =
    | InvalidUnits                    // a unit outside the conversion table
    | UnsupportedUnit(text: string)   // unit text that names no known unit (already lower-cased)

  /** The conversion table: factor to the PPM-equivalent scale; PPT has no entry. */
  function Factor(u: AssayUnit): (r: Option<real>)
    ensures r.Some? <==> u != PPT
    ensures r.Some? ==> r.value > 0.0
  {
    match u
    case PPM => Some(1.0)
    case PPB => Some(1000.0)
    case Percent => Some(10000.0)
    case GPT => Some(1.0)
    case PPT => None
  }

  /**
   * value × factor[from] / factor[to]; raises for any unit missing from the
   * table. The result is the unique y with y·factor[to] = value·factor[from].
   */
  function ConvertUnit(value: real, from: AssayUnit, to: AssayUnit): (r: Result<real, UnitError>)
    ensures r.Failure? <==> from == PPT || to == PPT
    ensures r.Failure? ==> r.error == InvalidUnits
    ensures r.Success? ==> r.value * Factor(to).value == value * Factor(from).value
  {
    if Factor(from).None? || Factor(to).None? then Failure(InvalidUnits)
    else
      var ppmValue := value * Factor(from).value;
      Success(ppmValue / Factor(to).value)
  }

  /** Converting to the same unit gives the value back. */
  lemma ConvertSameUnit(x: real, a: AssayUnit)
    requires a != PPT
    ensures ConvertUnit(x, a, a) == Success(x)
  {
  }

  /** Scaling by fa / fb and then by fb / fa gives the value back. */
  lemma ScaleRoundTrip(x: real, fa: real, fb: real)
    requires fa > 0.0 && fb > 0.0
    ensures x * fa / fb * fb / fa == x
  {
    assert x * fa / fb * fb == x * fa;
  }

  lemma ConvertValue(x: real, a: AssayUnit, b: AssayUnit)
    requires a != PPT && b != PPT
    ensures ConvertUnit(x, a, b) == Success(x * Factor(a).value / Factor(b).value)
  {
  }

  /** Converting there and back gives the value back (over the reals). */
  lemma {:induction false} ConvertRoundTrip(x: real, a: AssayUnit, b: AssayUnit)
    requires a != PPT && b != PPT
    ensures ConvertUnit(x, a, b).Success?
    ensures ConvertUnit(ConvertUnit(x, a, b).value, b, a) == Success(x)
  {
    var fa, fb := Factor(a).value, Factor(b).value;
    ConvertValue(x, a, b);
    ConvertValue(x * fa / fb, b, a);
    ScaleRoundTrip(x, fa, fb);
  }

  /**
   * Mass fraction that one unit of each kind stands for (1 % = 1/100,
   * 1 ppm = 1 g/t = 10^-6, 1 ppb = 10^-9), independent of the conversion table.
   */
  function MassFraction(u: AssayUnit): real
  {
    match u
    case PPM => 1.0 / 1000000.0
    case PPB => 1.0 / 1000000000.0
    case PPT => 1.0 / 1000000000000.0
    case Percent => 1.0 / 100.0
    case GPT => 1.0 / 1000000.0
  }

  /** A conversion is physically right when it keeps the mass fraction the value stands for. */
  predicate PreservesMassFraction(x: real, from: AssayUnit, to: AssayUnit, y: real)
  {
    y * MassFraction(to) == x * MassFraction(from)
  }

  /**
   * The table as written: Percent converts correctly, but the PPB factor is
   * inverted, so 1000 ppb (which is 1 ppm) converts to 1 000 000 ppm.
   */
  lemma PpbFactorInverted()
    ensures ConvertUnit(1.0, Percent, PPM) == Success(10000.0)
    ensures PreservesMassFraction(1.0, Percent, PPM, 10000.0)
    ensures ConvertUnit(1000.0, PPB, PPM) == Success(1000000.0)
    ensures !PreservesMassFraction(1000.0, PPB, PPM, 1000000.0)
  {
  }

  /** The conversion table with the PPB factor oriented like the others (ppm per ppb). */
  function IntendedFactor(u: AssayUnit): (r: Option<real>)
    ensures r.Some? <==> u != PPT
    ensures r.Some? ==> r.value > 0.0 && r.value * MassFraction(PPM) == MassFraction(u)
  {
    match u
    case PPM => Some(1.0)
    case PPB => Some(1.0 / 1000.0)
    case Percent => Some(10000.0)
    case GPT => Some(1.0)
    case PPT => None
  }

  /** convert_unit with the corrected PPB factor. */
  function ConvertUnitIntended(value: real, from: AssayUnit, to: AssayUnit): (r: Result<real, UnitError>)
    ensures r.Failure? <==> from == PPT || to == PPT
    ensures r.Failure? ==> r.error == InvalidUnits
    ensures r.Success? ==> r.value * IntendedFactor(to).value == value * IntendedFactor(from).value
  {
    if IntendedFactor(from).None? || IntendedFactor(to).None? then Failure(InvalidUnits)
    else Success(value * IntendedFactor(from).value / IntendedFactor(to).value)
  }

  /** Every corrected conversion keeps the mass fraction; 1000 ppb is 1 ppm. */
  lemma {:induction false} ConvertUnitIntendedPreservesMassFraction(x: real, a: AssayUnit, b: AssayUnit)
    requires a != PPT && b != PPT
    ensures ConvertUnitIntended(x, a, b).Success?
    ensures PreservesMassFraction(x, a, b, ConvertUnitIntended(x, a, b).value)
    ensures ConvertUnitIntended(1000.0, PPB, PPM) == Success(1.0)
  {
    var y := ConvertUnitIntended(x, a, b).value;
    var fa, fb := IntendedFactor(a).value, IntendedFactor(b).value;
    var m := MassFraction(PPM);
    assert y * fb == x * fa;
    assert y * fb * m == x * fa * m;
    assert fb * m == MassFraction(b) && fa * m == MassFraction(a);
    assert y * (fb * m) == x * (fa * m);
  }

  // ---------------------------------------------------------------- unit text

  function LowerChar(c: char): char
  {
    if 'A' <= c <= 'Z' then (c as int + 32) as char else c
  }

  /** ASCII lower-casing. */
  function Lower(s: string): (r: string)
    ensures |r| == |s|
    ensures forall i :: 0 <= i < |s| ==> r[i] == LowerChar(s[i])
  {
    seq(|s|, i requires 0 <= i < |s| => LowerChar(s[i]))
  }

  /** The unit text each unit is written as (GPT as "g/t"); PPT has none. */
  function UnitText(u: AssayUnit): string
  {
    match u
    case PPM => "ppm"
    case PPB => "ppb"
    case PPT => "ppt"
    case Percent => "%"
    case GPT => "g/t"
  }

  /** Case-insensitive parse of '%', 'ppm', 'ppb', 'g/t'; anything else raises. */
  function UnitTextToType(unit: string): (r: Result<AssayUnit, UnitError>)
    ensures r.Success? <==> Lower(unit) in {"%", "ppm", "ppb", "g/t"}
    ensures r.Success? ==> r.value != PPT && UnitText(r.value) == Lower(unit)
    ensures r.Failure? ==> r.error == UnsupportedUnit(Lower(unit))
  {
    var unit := Lower(unit);
    if unit == "%" then Success(Percent)
    else if unit == "ppm" then Success(PPM)
    else if unit == "ppb" then Success(PPB)
    else if unit == "g/t" then Success(GPT)
    else Failure(UnsupportedUnit(unit))
  }

  lemma LowerIdempotent(s: string)
    ensures Lower(Lower(s)) == Lower(s)
  {
  }

  /** Parsing is case-insensitive: any spelling parses as its lower-cased form. */
  lemma UnitTextCaseInsensitive(s: string)
    ensures UnitTextToType(s) == UnitTextToType(Lower(s))
  {
    LowerIdempotent(s);
  }

  /** Every unit except PPT parses back from its text; "ppt" is refused. */
  lemma UnitTextRoundTrip(u: AssayUnit)
    ensures u != PPT ==> UnitTextToType(UnitText(u)) == Success(u)
    ensures UnitTextToType("ppt").Failure?
  {
    assert Lower("ppt") == "ppt";
    assert Lower("ppm") == "ppm";
    assert Lower("ppb") == "ppb";
    assert Lower("g/t") == "g/t";
    assert Lower("%") == "%";
  }

  /**
   * Builds an assay type from an element and two unit texts; fails with the
   * base unit's error first, then the reported unit's.
   */
  function TryParseToAssayType(element: string, baseUnit: string, reportedUnit: string): (r: Result<AssayType, UnitError>)
    ensures r.Success? <==> UnitTextToType(baseUnit).Success? && UnitTextToType(reportedUnit).Success?
    ensures r.Success? ==>
              && r.value.element == element
              && UnitText(r.value.baseUnit) == Lower(baseUnit)
              && UnitText(r.value.reportedUnit) == Lower(reportedUnit)
    ensures UnitTextToType(baseUnit).Failure? ==> r == Failure(UnsupportedUnit(Lower(baseUnit)))
    ensures UnitTextToType(baseUnit).Success? && UnitTextToType(reportedUnit).Failure? ==>
              r == Failure(UnsupportedUnit(Lower(reportedUnit)))
  {
    match UnitTextToType(baseUnit)
    case Failure(e) => Failure(e)
    case Success(base) =>
      match UnitTextToType(reportedUnit)
      case Failure(e) => Failure(e)
      case Success(reported) => Success(AssayType(element, base, reported))
  }
}
