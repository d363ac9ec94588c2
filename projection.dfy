/** Step 5, projection chart: the current value and the four projected
    half-year values of the selected block, drawn only when all five are
    present. */
module Projection {
  import opened Tables

  /** The period labels of the chart's x axis (`fechas`). */
  const Periods: seq<string> := ["2024-S2", "2025-S1", "2025-S2", "2026-S1", "2026-S2"]

  /** `manzana_sel[["valor_m2", "valor_2025_s1", "valor_2025_s2", "valor_2026_s1", "valor_2026_s2"]]`
      of one row. */
  function Series(b: Block): seq<Option<real>>
  {
    [b.valueM2, b.value2025S1, b.value2025S2, b.value2026S1, b.value2026S2]
  }

  datatype PeriodValue = PeriodValue(period: string, value: real)

  /** The chart's points, or the "incomplete projection" warning. */
  datatype Outcome = Chart(points: seq<PeriodValue>) | Incomplete

  /** `if not any(pd.isna(serie_proyeccion))`: chart the five values against
      the five periods, otherwise report the projection as incomplete. */
  function ProjectionChart(b: Block): (r: Outcome)
    ensures r.Chart? <==>
      b.valueM2.Some? && b.value2025S1.Some? && b.value2025S2.Some? && b.value2026S1.Some? && b.value2026S2.Some?
    ensures r.Chart? ==> r.points == [
      PeriodValue("2024-S2", b.valueM2.value),
      PeriodValue("2025-S1", b.value2025S1.value),
      PeriodValue("2025-S2", b.value2025S2.value),
      PeriodValue("2026-S1", b.value2026S1.value),
      PeriodValue("2026-S2", b.value2026S2.value)]
  {
    var s := Series(b);
    assert (forall i | 0 <= i < |s| :: s[i].Some?) <==>
      (s[0].Some? && s[1].Some? && s[2].Some? && s[3].Some? && s[4].Some?);
    if forall i | 0 <= i < |s| :: s[i].Some? then
      Chart(seq(|s|, i requires 0 <= i < |s| => PeriodValue(Periods[i], s[i].value)))
    else Incomplete
  }

  /** A single missing value, in any of the five positions, suppresses the
      chart; no value is substituted for it. */
  lemma MissingValueSuppressesChart(b: Block, k: nat)
    requires k < |Series(b)| && Series(b)[k].None?
    ensures ProjectionChart(b) == Incomplete
  {
  }
}
