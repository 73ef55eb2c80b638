/** The units ontology: for each of the thirteen parameters a canonical
    unit, the units a curator may enter, a linear conversion from each of
    them to the canonical unit, and a validation range. */
module Units {
  import opened Wrappers
  import Evidence

  /** A `to_canonical` formula. Every formula in the table is `value`,
      `value * k` or `value / k` for a constant `k`. */
  datatype Conversion = Identity | Times(factor: real) | Divide(divisor: Divisor)

  /** The divisors in the table are all positive. */
  type Divisor = k: real | k > 0.0 witness 1.0

  /** Evaluate a formula at a value. */
  function Apply(c: Conversion, v: real): real {
    match c
    case Identity => v
    case Times(f) => v * f
    case Divide(d) => v / d
  }

  /** `{ min?, max? }`. */
  datatype Validation = Validation(min: Option<real>, max: Option<real>)

  /** `ParameterUnit`. */
  datatype ParameterUnit = ParameterUnit(
    name: string,
    canonical: string,
    allowed: seq<string>,
    conversions: map<string, Conversion>,
    validation: Validation)

  /** `unitsOntology.parameters`. */
  type Ontology = map<string, ParameterUnit>

  const Ratio := Validation(Some(0.0), Some(1.0))
  const NonNegative := Validation(Some(0.0), None)

  const YieldUnit := ParameterUnit("Yield", "ratio", ["%", "ratio", "kg/kg"],
    map["%" := Divide(100.0), "ratio" := Identity, "kg/kg" := Identity], Ratio)
  const DegradationUnit := ParameterUnit("Degradation Rate", "ratio", ["%", "ratio", "fraction"],
    map["%" := Divide(100.0), "ratio" := Identity, "fraction" := Identity], Ratio)
  const ContaminationUnit := ParameterUnit("Contamination Level", "ppm", ["ppm", "mg/kg", "%", "ppb"],
    map["ppm" := Identity, "mg/kg" := Identity, "%" := Times(10000.0), "ppb" := Divide(1000.0)], NonNegative)
  const MarketUnit := ParameterUnit("Market Demand Index", "index", ["index", "score", "unitless"],
    map["index" := Identity, "score" := Identity, "unitless" := Identity], Validation(Some(0.0), Some(100.0)))
  const EnergyUnit := ParameterUnit("Energy Intensity", "MJ/kg", ["MJ/kg", "kWh/kg", "GJ/ton", "BTU/lb"],
    map["MJ/kg" := Identity, "kWh/kg" := Times(3.6), "GJ/ton" := Identity, "BTU/lb" := Times(0.002326)], NonNegative)
  const BiodegradabilityUnit := ParameterUnit("Biodegradability", "ratio", ["%", "ratio", "fraction"],
    map["%" := Divide(100.0), "ratio" := Identity, "fraction" := Identity], Ratio)
  const NutrientUnit := ParameterUnit("Nutrient Value", "kg/kg", ["kg/kg", "%", "g/kg", "ratio"],
    map["kg/kg" := Identity, "%" := Divide(100.0), "g/kg" := Divide(1000.0), "ratio" := Identity], Ratio)
  /** Toxicity as the table writes it: the identity conversion is keyed
      `LD50_mg_kg`, not by the canonical unit `LD50_mg/kg`. */
  const ToxicityUnitAsWritten := ParameterUnit("Toxicity Level", "LD50_mg/kg", ["LD50_mg/kg", "mg/kg", "g/kg"],
    map["LD50_mg_kg" := Identity, "mg/kg" := Identity, "g/kg" := Times(1000.0)], NonNegative)
  /** Toxicity with the identity conversion keyed by the canonical unit. */
  const ToxicityUnit := ParameterUnit("Toxicity Level", "LD50_mg/kg", ["LD50_mg/kg", "mg/kg", "g/kg"],
    map["LD50_mg/kg" := Identity, "mg/kg" := Identity, "g/kg" := Times(1000.0)], NonNegative)
  const HealthUnit := ParameterUnit("Health Impact Score", "DALY", ["DALY", "QALY", "score"],
    map["DALY" := Identity, "QALY" := Times(-1.0), "score" := Identity], NonNegative)
  const LaborUnit := ParameterUnit("Labor Intensity", "hours/kg", ["hours/kg", "hours/ton", "FTE/year", "person-hours/kg"],
    map["hours/kg" := Identity, "hours/ton" := Divide(1000.0), "FTE/year" := Identity, "person-hours/kg" := Identity],
    NonNegative)
  const RecoveryUnit := ParameterUnit("Resource Recovery Rate", "ratio", ["%", "ratio", "kg/kg"],
    map["%" := Divide(100.0), "ratio" := Identity, "kg/kg" := Identity], Ratio)
  const RetentionUnit := ParameterUnit("Utility Retention", "ratio", ["%", "ratio", "score"],
    map["%" := Divide(100.0), "ratio" := Identity, "score" := Divide(100.0)], Ratio)
  const ReuseContaminationUnit := ParameterUnit("Reusability Contamination", "ppm", ["ppm", "mg/kg", "%", "ppb"],
    map["ppm" := Identity, "mg/kg" := Identity, "%" := Times(10000.0), "ppb" := Divide(1000.0)], NonNegative)

  /** The entry of a parameter code in the table, with the Toxicity entry
      as written. */
  function EntryAsWritten(code: string): Option<ParameterUnit> {
    if code == "T" then Some(ToxicityUnitAsWritten) else Entry(code)
  }

  /** The entry of a parameter code in the table, with the Toxicity
      conversion keyed as intended; the rest of the model uses this one. */
  function Entry(code: string): Option<ParameterUnit> {
    if code == "Y" then Some(YieldUnit)
    else if code == "D" then Some(DegradationUnit)
    else if code == "C" then Some(ContaminationUnit)
    else if code == "M" then Some(MarketUnit)
    else if code == "E" then Some(EnergyUnit)
    else if code == "B" then Some(BiodegradabilityUnit)
    else if code == "N" then Some(NutrientUnit)
    else if code == "T" then Some(ToxicityUnit)
    else if code == "H" then Some(HealthUnit)
    else if code == "L" then Some(LaborUnit)
    else if code == "R" then Some(RecoveryUnit)
    else if code == "U" then Some(RetentionUnit)
    else if code == "C_RU" then Some(ReuseContaminationUnit)
    else None
  }

  /** `unitsOntology.parameters` as written. */
  const UnitsAsWritten: Ontology := map c | c in Evidence.AllParams :: EntryAsWritten(c).GetOr(YieldUnit)

  /** `unitsOntology.parameters` with the Toxicity conversion corrected. */
  const UnitsTable: Ontology := map c | c in Evidence.AllParams :: Entry(c).GetOr(YieldUnit)

  /** The conversion of a value in `unit` to the canonical unit, if the
      entry has one. */
  function ToCanonical(pu: ParameterUnit, unit: string, v: real): (r: Option<real>)
    ensures r.Some? <==> unit in pu.conversions
    ensures r.Some? ==> r.value == Apply(pu.conversions[unit], v)
    ensures WellFormed(pu) && unit in pu.allowed ==> r.Some?
    ensures WellFormed(pu) && unit == pu.canonical ==> r == Some(v)
  {
    if unit in pu.conversions then Some(Apply(pu.conversions[unit], v)) else None
  }

  /** The invariants the ontology tests assert of an entry: the canonical
      unit is allowed, every allowed unit has a conversion, the canonical
      unit converts by the identity, and the range is not empty. */
  predicate WellFormed(pu: ParameterUnit) {
    && pu.canonical in pu.allowed
    && (forall u :: u in pu.allowed ==> u in pu.conversions)
    && pu.canonical in pu.conversions && pu.conversions[pu.canonical] == Identity
    && (pu.validation.min.Some? && pu.validation.max.Some? ==> pu.validation.min.value <= pu.validation.max.value)
  }

  /** The Toxicity entry as written breaks the conversion invariant: its
      canonical unit is allowed but has no conversion, so a value entered in
      the canonical unit cannot be converted. */
  lemma ToxicityCanonicalUnconvertible(v: real)
    ensures ToxicityUnitAsWritten.canonical in ToxicityUnitAsWritten.allowed
    ensures ToCanonical(EntryAsWritten("T").value, "LD50_mg/kg", v).None?
    ensures !WellFormed(EntryAsWritten("T").value)
  {
    assert "LD50_mg/kg" != "LD50_mg_kg" by {
      assert "LD50_mg/kg"[7] != "LD50_mg_kg"[7];
    }
  }

  /** The thirteen codes are exactly the codes with an entry. */
  lemma AllThirteenPresent(code: string)
    ensures Entry(code).Some? <==> code in Evidence.AllParams
    ensures EntryAsWritten(code).Some? <==> code in Evidence.AllParams
    ensures code in UnitsTable <==> code in Evidence.AllParams
    ensures code in UnitsTable ==> Some(UnitsTable[code]) == Entry(code)
  {
  }

  lemma CrEntriesWellFormed()
    ensures WellFormed(YieldUnit) && WellFormed(DegradationUnit) && WellFormed(ContaminationUnit)
    ensures WellFormed(MarketUnit) && WellFormed(EnergyUnit)
  {
  }

  lemma CcEntriesWellFormed()
    ensures WellFormed(BiodegradabilityUnit) && WellFormed(NutrientUnit) && WellFormed(ToxicityUnit)
  {
  }

  lemma RuEntriesWellFormed()
    ensures WellFormed(HealthUnit) && WellFormed(LaborUnit) && WellFormed(RecoveryUnit)
    ensures WellFormed(RetentionUnit) && WellFormed(ReuseContaminationUnit)
  {
  }

  /** Every entry of the corrected table is well formed. */
  lemma TableWellFormed(code: string)
    requires Entry(code).Some?
    ensures WellFormed(Entry(code).value)
  {
    CrEntriesWellFormed();
    CcEntriesWellFormed();
    RuEntriesWellFormed();
  }

  /** Converting from any allowed unit succeeds, and converting a value
      already in the canonical unit returns it unchanged. */
  lemma ConversionsTotal(code: string, unit: string, v: real)
    requires Entry(code).Some? && unit in Entry(code).value.allowed
    ensures ToCanonical(Entry(code).value, unit, v).Some?
    ensures ToCanonical(Entry(code).value, Entry(code).value.canonical, v) == Some(v)
  {
    TableWellFormed(code);
  }

  /** The parameters whose canonical unit is `ratio` are exactly Y, D, B, R
      and U, and they are validated against `[0, 1]`. */
  lemma RatioParametersInUnitRange(code: string)
    ensures Entry(code).Some? && Entry(code).value.canonical == "ratio" <==> code in ["Y", "D", "B", "R", "U"]
    ensures Entry(code).Some? && Entry(code).value.canonical == "ratio" ==> Entry(code).value.validation == Ratio
  {
  }

  /** `%` is one of Yield's units and `kg` is not. */
  lemma YieldUnitCases()
    ensures "%" in Entry("Y").value.allowed
    ensures "kg" !in Entry("Y").value.allowed
  {
  }
}
