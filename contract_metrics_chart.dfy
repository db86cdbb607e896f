/**
 * The metrics pie chart: four equal segments, each coloured by its metric's
 * value.
 */
module ContractMetricsChart {
  import opened AuditRoute

  const Green: string := "#4ade80"
  const Yellow: string := "#facc15"
  const Red: string := "#f87171"

  /** How good a colour is: red, then yellow, then green. */
  function Rank(colour: string): nat {
    if colour == Green then 2 else if colour == Yellow then 1 else 0
  }

  /** `getColorForValue`; NaN and anything else that fails both comparisons is red. */
  function ColorForValue(v: MetricInput): (c: string)
    ensures v.Num? ==> (v.x >= 0.8 <==> c == Green)
    ensures v.Num? ==> (0.5 <= v.x < 0.8 <==> c == Yellow)
    ensures v.Num? ==> (v.x < 0.5 <==> c == Red)
    ensures v.PosInf? ==> c == Green
    ensures v.NaN? || v.NegInf? || v.NotNumber? ==> c == Red
  {
    match v
    case Num(x) => if x >= 0.8 then Green else if x >= 0.5 then Yellow else Red
    case PosInf => Green
    case _ => Red
  }

  /** A larger value never gets a worse colour. */
  lemma ColorMonotone(u: real, v: real)
    requires u <= v
    ensures Rank(ColorForValue(Num(u))) <= Rank(ColorForValue(Num(v)))
  {
  }

  /** A metric the audit service could not read is stored as 0.5 and so shows yellow. */
  lemma DefaultMetricIsYellow(v: MetricInput)
    requires v.NotNumber? || v.NaN?
    ensures ColorForValue(Num(EnsureValidMetric(v))) == Yellow
  {
  }

  /** One pie segment: its name, its weight, and the metric it reports. */
  datatype Segment = Segment(name: string, weight: nat, actualValue: real)

  /** `equalData`. */
  function EqualData(m: Metrics): (r: seq<Segment>)
    ensures |r| == 4
    ensures forall i :: 0 <= i < 4 ==> r[i].weight == 1
    ensures r[0] == Segment("Autonomy", 1, m.autonomy) && r[1] == Segment("Exitwindow", 1, m.exitwindow)
    ensures r[2] == Segment("Chain", 1, m.chain) && r[3] == Segment("Upgradeability", 1, m.upgradeability)
  {
    [Segment("Autonomy", 1, m.autonomy), Segment("Exitwindow", 1, m.exitwindow),
     Segment("Chain", 1, m.chain), Segment("Upgradeability", 1, m.upgradeability)]
  }

  /** Equal segments: whatever the metrics, the slices are the same four names with the same weights. */
  lemma EqualDataShape(m: Metrics, n: Metrics)
    ensures forall i :: 0 <= i < 4 ==> EqualData(m)[i].name == EqualData(n)[i].name && EqualData(m)[i].weight == EqualData(n)[i].weight
  {
  }
}
