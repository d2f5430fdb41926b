/** What the Sentinel modules share: metrics, bands, and their order. */
module SentinelTypes {
  import opened Prelude

  /** A probe reading; a broken probe can report NaN or an infinity. */
  datatype Reading = Finite(value: real) | NonFinite

  datatype Metric = Metric(
    name: string,
    timestampMs: int,
    value: Reading,
    inPercent: bool,
    utilisationPercent: Option<Reading>,
    available: Option<bool>)

  function UtilisationOf(m: Metric): Reading {
    if m.utilisationPercent.Some? then m.utilisationPercent.value
    else if m.inPercent then m.value
    else Finite(0.0)
  }

  datatype Severity = GREEN | YELLOW | ORANGE | RED | BLACK

  function Rank(s: Severity): nat {
    match s case GREEN => 0 case YELLOW => 1 case ORANGE => 2 case RED => 3 case BLACK => 4
  }

  /** Lower bound of each band, in percent. */
  function Threshold(s: Severity): real {
    match s case GREEN => 0.0 case YELLOW => 70.0 case ORANGE => 85.0 case RED => 95.0 case BLACK => 99.0
  }
}
