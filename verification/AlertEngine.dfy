/** The alert engine: bands with hysteresis, one state machine per metric series. */
module AlertEngine {
  import opened Prelude
  import opened SentinelTypes

  /** A non-finite reading is no signal, not an extreme one. */
  function EvaluateSeverity(u: Reading): Severity {
    var value := match u { case Finite(x) => x case NonFinite => 0.0 };
    if value >= Threshold(BLACK) then BLACK
    else if value >= Threshold(RED) then RED
    else if value >= Threshold(ORANGE) then ORANGE
    else if value >= Threshold(YELLOW) then YELLOW
    else GREEN
  }

  /** The band is the highest whose threshold the reading reaches. */
  lemma {:induction false} BandIsHighestReached(x: real, s: Severity)
    ensures Rank(s) <= Rank(EvaluateSeverity(Finite(x))) <==> s == GREEN || x >= Threshold(s)
  {
  }

  /** What a reading amounts to: the band it reaches, and none without a finite reading in percent. */
  predicate IsBandOf(s: Severity, m: Metric) {
    var reading := if m.utilisationPercent.Some? then m.utilisationPercent.value
                   else if m.inPercent then m.value else NonFinite;
    && (s == BLACK <==> reading.Finite? && reading.value >= 99.0)
    && (s == RED <==> reading.Finite? && 95.0 <= reading.value < 99.0)
    && (s == ORANGE <==> reading.Finite? && 85.0 <= reading.value < 95.0)
    && (s == YELLOW <==> reading.Finite? && 70.0 <= reading.value < 85.0)
    && (s == GREEN <==> reading.NonFinite? || reading.value < 70.0)
  }

  lemma {:induction false} BandIsExact(m: Metric)
    ensures IsBandOf(EvaluateSeverity(UtilisationOf(m)), m)
  {
  }

  datatype SeriesState = SeriesState(currentSeverity: Severity, candidateSeverity: Severity, consecutive: nat)

  datatype Alert = Alert(
    severity: Severity,
    metricName: string,
    currentUtilisation: real,
    remainingCapacity: real,
    consecutiveBreaches: nat,
    previousSeverity: Severity)

  /** The alert carries the reading that caused it, and what it leaves, in hundredths. */
  predicate ShowsFigures(a: Alert, m: Metric) {
    && UtilisationOf(m).Finite?
    && a.currentUtilisation == Fixed2(UtilisationOf(m).value)
    && a.remainingCapacity == Fixed2(MaxR(0.0, 100.0 - UtilisationOf(m).value))
  }

  // ---------------------------------------------------------------------------
  // One series
  // ---------------------------------------------------------------------------

  /** The state after counting an observation, before any transition. */
  function Count(st: Option<SeriesState>, observed: Severity): SeriesState {
    match st
    case None => SeriesState(GREEN, observed, 1)
    case Some(s) =>
      if observed == s.candidateSeverity then s.(consecutive := s.consecutive + 1)
      else SeriesState(s.currentSeverity, observed, 1)
  }

  /** The observation moves the confirmed band. */
  predicate Transitions(n: nat, st: Option<SeriesState>, observed: Severity) {
    observed != Count(st, observed).currentSeverity && Count(st, observed).consecutive >= n
  }

  function Observe(n: nat, st: Option<SeriesState>, observed: Severity): SeriesState {
    if Transitions(n, st, observed) then Count(st, observed).(currentSeverity := observed) else Count(st, observed)
  }

  /** The state of a series after these bands; None before the first. */
  function Fold(n: nat, obs: seq<Severity>): (r: Option<SeriesState>)
    ensures r.Some? <==> obs != []
  {
    if obs == [] then None else Some(Observe(n, Fold(n, obs[..|obs| - 1]), obs[|obs| - 1]))
  }

  /** The length of the run of equal bands that ends the list. */
  function RunLength(obs: seq<Severity>): nat {
    if obs == [] then 0
    else if |obs| >= 2 && obs[|obs| - 2] == obs[|obs| - 1] then RunLength(obs[..|obs| - 1]) + 1
    else 1
  }

  /** The `n` observations that end the list carry one band. */
  ghost predicate EndsInRun(obs: seq<Severity>, n: nat) {
    1 <= n <= |obs| && forall i :: |obs| - n <= i < |obs| ==> obs[i] == obs[|obs| - 1]
  }

  /** The band of the most recent run of `n` equal observations; GREEN if there never was one. */
  ghost function Confirmed(obs: seq<Severity>, n: nat): Severity {
    if obs == [] then GREEN
    else if EndsInRun(obs, n) then obs[|obs| - 1]
    else Confirmed(obs[..|obs| - 1], n)
  }

  lemma {:induction false} RunLengthDecides(obs: seq<Severity>, n: nat)
    requires n >= 1
    ensures EndsInRun(obs, n) <==> n <= RunLength(obs)
    ensures RunLength(obs) <= |obs|
  {
    if |obs| >= 2 && obs[|obs| - 2] == obs[|obs| - 1] && n >= 2 {
      var front := obs[..|obs| - 1];
      RunLengthDecides(front, n - 1);
      assert EndsInRun(obs, n) ==> EndsInRun(front, n - 1);
      assert forall i :: 0 <= i < |front| ==> front[i] == obs[i];
    } else if |obs| >= 2 {
      RunLengthDecides(obs[..|obs| - 1], 1);
    }
  }

  /**
   * The state machine computes its declared meaning: the candidate is the last band, the counter
   * the length of its run, and the confirmed band that of the latest run of `n` observations.
   */
  lemma {:induction false} FoldIsConfirmed(n: nat, obs: seq<Severity>)
    requires n >= 1 && obs != []
    ensures var st := Fold(n, obs).value;
      && st.candidateSeverity == obs[|obs| - 1]
      && st.consecutive == RunLength(obs)
      && st.currentSeverity == Confirmed(obs, n)
      && (st.consecutive >= n ==> st.currentSeverity == st.candidateSeverity)
  {
    var front := obs[..|obs| - 1];
    RunLengthDecides(obs, n);
    if front != [] {
      FoldIsConfirmed(n, front);
      RunLengthDecides(front, n);
    }
  }

  /**
   * Every transition, an alert or a recovery, happens exactly at the `n`-th observation of its
   * run, and exactly when the run's band is not the confirmed one.
   */
  lemma {:induction false} TransitionsAtNth(n: nat, obs: seq<Severity>, band: Severity)
    requires n >= 1
    ensures Transitions(n, Fold(n, obs), band)
       <==> RunLength(obs + [band]) == n && Confirmed(obs, n) != band
  {
    assert (obs + [band])[..|obs|] == obs;
    if obs != [] {
      FoldIsConfirmed(n, obs);
      RunLengthDecides(obs, n);
    }
  }

  function TransitionCount(n: nat, obs: seq<Severity>): nat {
    if obs == [] then 0
    else
      var front := obs[..|obs| - 1];
      TransitionCount(n, front) + if Transitions(n, Fold(n, front), obs[|obs| - 1]) then 1 else 0
  }

  /** Transitions spend disjoint runs of `n`, so there are at most |obs| / n of them. */
  lemma {:induction false} TransitionsAreRare(n: nat, obs: seq<Severity>)
    requires n >= 1
    ensures TransitionCount(n, obs) * n +
      (if obs != [] && Confirmed(obs, n) != obs[|obs| - 1] then RunLength(obs) else 0) <= |obs|
  {
    if obs != [] {
      var front, band := obs[..|obs| - 1], obs[|obs| - 1];
      TransitionsAreRare(n, front);
      FoldIsConfirmed(n, obs);
      TransitionsAtNth(n, front, band);
      assert front + [band] == obs;
      if front != [] {
        FoldIsConfirmed(n, front);
      }
      assert (TransitionCount(n, front) + 1) * n == TransitionCount(n, front) * n + n;
    }
  }

  // ---------------------------------------------------------------------------
  // The engine
  // ---------------------------------------------------------------------------

  /** The bands observed on one series: an unavailable probe is not an observation. */
  function Bands(history: seq<Metric>, name: string): seq<Severity> {
    if history == [] then []
    else
      var m := history[|history| - 1];
      Bands(history[..|history| - 1], name) +
      if Observes(m, name) then [EvaluateSeverity(UtilisationOf(m))] else []
  }

  predicate Observes(m: Metric, name: string) {
    m.name == name && m.available != Some(false)
  }

  lemma {:induction false} BandsSnoc(history: seq<Metric>, m: Metric, name: string)
    ensures Observes(m, name) ==>
      Bands(history + [m], name) == Bands(history, name) + [EvaluateSeverity(UtilisationOf(m))]
    ensures !Observes(m, name) ==> Bands(history + [m], name) == Bands(history, name)
  {
    assert (history + [m])[..|history|] == history;
  }

  /** The metric moves the confirmed band of its own series, after this history. */
  predicate Moves(n: nat, history: seq<Metric>, m: Metric) {
    Observes(m, m.name) && Transitions(n, Fold(n, Bands(history, m.name)), EvaluateSeverity(UtilisationOf(m)))
  }

  /** A move to a band other than GREEN is an alert, a move to GREEN a recovery. */
  function AlertsIn(n: nat, history: seq<Metric>): nat {
    if history == [] then 0
    else
      var front, m := history[..|history| - 1], history[|history| - 1];
      AlertsIn(n, front) + if Moves(n, front, m) && EvaluateSeverity(UtilisationOf(m)) != GREEN then 1 else 0
  }

  function RecoveriesIn(n: nat, history: seq<Metric>): nat {
    if history == [] then 0
    else
      var front, m := history[..|history| - 1], history[|history| - 1];
      RecoveriesIn(n, front) + if Moves(n, front, m) && EvaluateSeverity(UtilisationOf(m)) == GREEN then 1 else 0
  }

  function Observations(history: seq<Metric>): nat {
    if history == [] then 0
    else
      var m := history[|history| - 1];
      Observations(history[..|history| - 1]) + if Observes(m, m.name) then 1 else 0
  }

  /** The history without one series. */
  function Without(history: seq<Metric>, name: string): (r: seq<Metric>)
    ensures |r| <= |history|
    ensures (exists i :: 0 <= i < |history| && history[i].name == name) ==> |r| < |history|
  {
    if history == [] then []
    else
      var m := history[|history| - 1];
      Without(history[..|history| - 1], name) + if m.name == name then [] else [m]
  }

  lemma {:induction false} AlertsSnoc(n: nat, history: seq<Metric>, m: Metric)
    ensures AlertsIn(n, history + [m]) == AlertsIn(n, history)
      + if Moves(n, history, m) && EvaluateSeverity(UtilisationOf(m)) != GREEN then 1 else 0
  {
    assert (history + [m])[..|history|] == history;
  }

  lemma {:induction false} OthersKeepBands(history: seq<Metric>, name: string, other: string)
    requires other != name
    ensures Bands(Without(history, name), other) == Bands(history, other)
  {
    if history != [] {
      var front, m := history[..|history| - 1], history[|history| - 1];
      OthersKeepBands(front, name, other);
      if m.name != name {
        BandsSnoc(Without(front, name), m, other);
      } else {
        assert Without(history, name) == Without(front, name);
      }
    }
  }

  lemma {:induction false} CountsSnoc(n: nat, history: seq<Metric>, m: Metric)
    ensures AlertsIn(n, history + [m]) + RecoveriesIn(n, history + [m])
      == AlertsIn(n, history) + RecoveriesIn(n, history) + if Moves(n, history, m) then 1 else 0
    ensures Observations(history + [m]) == Observations(history) + if Observes(m, m.name) then 1 else 0
  {
    assert (history + [m])[..|history|] == history;
  }

  /** All moves are those of one series and those of the others; so are the observations. */
  lemma {:induction false} SeriesSplit(n: nat, history: seq<Metric>, name: string)
    ensures AlertsIn(n, history) + RecoveriesIn(n, history)
      == TransitionCount(n, Bands(history, name))
      + AlertsIn(n, Without(history, name)) + RecoveriesIn(n, Without(history, name))
    ensures Observations(history) == |Bands(history, name)| + Observations(Without(history, name))
  {
    hide Transitions, EvaluateSeverity, AlertsIn, RecoveriesIn, Observations;
    if history == [] {
      NothingSplit(n, name);
    } else {
      var front, m := history[..|history| - 1], history[|history| - 1];
      assert history == front + [m];
      SeriesSplit(n, front, name);
      CountsSnoc(n, front, m);
      BandsSnoc(front, m, name);
      if m.name == name {
        assert Without(history, name) == Without(front, name);
        if Observes(m, name) {
          assert Bands(history, name)[..|Bands(front, name)|] == Bands(front, name);
        }
      } else {
        assert Without(history, name) == Without(front, name) + [m];
        OthersKeepBands(front, name, m.name);
        CountsSnoc(n, Without(front, name), m);
      }
    }
  }

  lemma {:induction false} NothingSplit(n: nat, name: string)
    ensures AlertsIn(n, []) == RecoveriesIn(n, []) == 0 && Observations([]) == 0
    ensures TransitionCount(n, Bands([], name)) == 0 && Without([], name) == [] && Bands([], name) == []
  {
  }

  /** Over all series: alerts and recoveries together take `n` observations each. */
  lemma {:induction false} AlertsAreRare(n: nat, history: seq<Metric>)
    requires n >= 1
    ensures (AlertsIn(n, history) + RecoveriesIn(n, history)) * n <= Observations(history)
    decreases |history|
  {
    hide Bands, Transitions, Confirmed, RunLength, TransitionCount;
    if history != [] {
      var name := history[0].name;
      var rest := Without(history, name);
      SeriesSplit(n, history, name);
      TransitionsAreRare(n, Bands(history, name));
      AlertsAreRare(n, rest);
      Distribute(TransitionCount(n, Bands(history, name)), AlertsIn(n, rest) + RecoveriesIn(n, rest), n);
    }
  }

  lemma {:induction false} Distribute(a: nat, b: nat, n: nat)
    ensures (a + b) * n == a * n + b * n
  {
  }

  /**
   * One series of the engine agrees with the bands observed on it, and an alert is active iff its
   * confirmed band is not GREEN.
   */
  ghost predicate SeriesAgrees(
    n: nat, obs: seq<Severity>, name: string, series: map<string, SeriesState>, active: map<string, Alert>)
  {
    && (name in series <==> obs != [])
    && (name in series ==> Fold(n, obs) == Some(series[name]))
    && (name in active <==> name in series && series[name].currentSeverity != GREEN)
    && (name in active ==> active[name].severity == series[name].currentSeverity)
  }

  class Engine {
    const hysteresisBreaches: nat
    var series: map<string, SeriesState>
    var activeAlerts: map<string, Alert>
    var alertsEmitted: nat

    /** Everything evaluated since construction. */
    ghost var history: seq<Metric>

    ghost predicate Valid()
      reads this
    {
      && hysteresisBreaches >= 1
      && alertsEmitted == AlertsIn(hysteresisBreaches, history)
      && forall name :: SeriesAgrees(hysteresisBreaches, Bands(history, name), name, series, activeAlerts)
    }

    /** A configured value that is not positive falls back to three. */
    constructor (configured: int)
      ensures Valid() && history == [] && alertsEmitted == 0
      ensures hysteresisBreaches == if configured > 0 then configured else 3
    {
      hysteresisBreaches := if configured > 0 then configured else 3;
      series, activeAlerts, alertsEmitted := map[], map[], 0;
      history := [];
    }

    method Evaluate(m: Metric) returns (r: Option<Alert>)
      requires Valid()
      modifies this
      ensures Valid() && history == old(history) + [m]
      ensures var obs, band := Bands(old(history), m.name), EvaluateSeverity(UtilisationOf(m));
        var moved := m.available != Some(false) && Transitions(hysteresisBreaches, Fold(hysteresisBreaches, obs), band);
        && (r.Some? <==> moved && band != GREEN)
        && (r.Some? ==> r.value.severity == band && r.value.metricName == m.name
                        && r.value.previousSeverity == Confirmed(obs, hysteresisBreaches)
                        && r.value.consecutiveBreaches == hysteresisBreaches && ShowsFigures(r.value, m))
      ensures alertsEmitted == old(alertsEmitted) + if r.Some? then 1 else 0
    {
      forall name
        ensures Observes(m, name) ==>
          Bands(history + [m], name) == Bands(history, name) + [EvaluateSeverity(UtilisationOf(m))]
        ensures !Observes(m, name) ==> Bands(history + [m], name) == Bands(history, name)
      {
        BandsSnoc(history, m, name);
      }
      ghost var obs := Bands(history, m.name);
      AlertsSnoc(hysteresisBreaches, history, m);
      if m.available == Some(false) {
        history := history + [m];
        return None;
      }
      var observed := EvaluateSeverity(UtilisationOf(m));
      assert SeriesAgrees(hysteresisBreaches, obs, m.name, series, activeAlerts);
      FoldSnoc(hysteresisBreaches, obs, observed);
      TransitionsAtNth(hysteresisBreaches, obs, observed);
      CountIsRun(hysteresisBreaches, obs, observed);
      r := UpdateSeries(m, observed, obs);
      history := history + [m];
    }

    /** Count the observation, and move the confirmed band when its run is long enough. */
    method UpdateSeries(m: Metric, observed: Severity, ghost obs: seq<Severity>) returns (r: Option<Alert>)
      requires hysteresisBreaches >= 1 && observed == EvaluateSeverity(UtilisationOf(m))
      requires SeriesAgrees(hysteresisBreaches, obs, m.name, series, activeAlerts)
      requires Fold(hysteresisBreaches, obs + [observed])
        == Some(Observe(hysteresisBreaches, Fold(hysteresisBreaches, obs), observed))
      requires Count(Fold(hysteresisBreaches, obs), observed).currentSeverity == Confirmed(obs, hysteresisBreaches)
      requires Transitions(hysteresisBreaches, Fold(hysteresisBreaches, obs), observed) ==>
        Count(Fold(hysteresisBreaches, obs), observed).consecutive == hysteresisBreaches
      modifies this`series, this`activeAlerts, this`alertsEmitted
      ensures SeriesAgrees(hysteresisBreaches, obs + [observed], m.name, series, activeAlerts)
      ensures forall k, bands :: k != m.name ==>
        SeriesAgrees(hysteresisBreaches, bands, k, series, activeAlerts)
        == SeriesAgrees(hysteresisBreaches, bands, k, old(series), old(activeAlerts))
      ensures r.Some? <==> Transitions(hysteresisBreaches, Fold(hysteresisBreaches, obs), observed) && observed != GREEN
      ensures r.Some? ==> r.value.severity == observed && r.value.metricName == m.name
                          && r.value.previousSeverity == Confirmed(obs, hysteresisBreaches)
                          && r.value.consecutiveBreaches == hysteresisBreaches && ShowsFigures(r.value, m)
      ensures alertsEmitted == old(alertsEmitted) + if r.Some? then 1 else 0
    {
      hide Fixed2, MaxR, Confirmed, Fold;
      var key := m.name;
      var state := Count(if key in series then Some(series[key]) else None, observed);
      series := series[key := state];
      if observed == state.currentSeverity {
        if observed == GREEN {
          activeAlerts := activeAlerts - {key};
        }
        return None;
      }
      if state.consecutive < hysteresisBreaches {
        return None;
      }
      var previousSeverity := state.currentSeverity;
      series := series[key := state.(currentSeverity := observed)];
      if observed == GREEN {
        activeAlerts := activeAlerts - {key};
        return None;
      }
      var utilisation := match UtilisationOf(m) { case Finite(x) => x case NonFinite => 0.0 };
      var alert := Alert(observed, key, Fixed2(utilisation), Fixed2(MaxR(0.0, 100.0 - utilisation)),
                         state.consecutive, previousSeverity);
      activeAlerts := activeAlerts[key := alert];
      alertsEmitted := alertsEmitted + 1;
      r := Some(alert);
    }

    /** The engine's own counter: each alert took its own N available observations, over all series. */
    lemma {:induction false} AlertsEmittedAreRare()
      requires Valid()
      ensures alertsEmitted * hysteresisBreaches <= Observations(history)
      ensures (alertsEmitted + RecoveriesIn(hysteresisBreaches, history)) * hysteresisBreaches <= Observations(history)
    {
      hide AlertsIn, RecoveriesIn, Observations;
      AlertsAreRare(hysteresisBreaches, history);
      Distribute(alertsEmitted, RecoveriesIn(hysteresisBreaches, history), hysteresisBreaches);
    }

    /** The declared meaning of a series' severity. */
    ghost function ConfirmedFor(name: string): Severity
      reads this
    {
      Confirmed(Bands(history, name), hysteresisBreaches)
    }

    lemma {:induction false} SeriesShowsConfirmed(name: string)
      requires Valid()
      ensures ConfirmedFor(name) == if name in series then series[name].currentSeverity else GREEN
    {
      assert SeriesAgrees(hysteresisBreaches, Bands(history, name), name, series, activeAlerts);
      if name in series {
        FoldIsConfirmed(hysteresisBreaches, Bands(history, name));
      }
    }

    /** The confirmed severity of one series. */
    method SeverityFor(name: string) returns (s: Severity)
      requires Valid()
      ensures s == ConfirmedFor(name)
    {
      SeriesShowsConfirmed(name);
      s := if name in series then series[name].currentSeverity else GREEN;
    }

    /** An alert is active exactly for the series whose confirmed band is not GREEN, and carries that band. */
    lemma {:induction false} ActiveIffConfirmed(name: string)
      requires Valid()
      ensures name in activeAlerts <==> ConfirmedFor(name) != GREEN
      ensures name in activeAlerts ==> activeAlerts[name].severity == ConfirmedFor(name)
    {
      SeriesShowsConfirmed(name);
      assert SeriesAgrees(hysteresisBreaches, Bands(history, name), name, series, activeAlerts);
    }

    /** The highest confirmed severity over all series. */
    method AggregateSeverity() returns (worst: Severity)
      requires Valid()
      ensures forall name :: Rank(ConfirmedFor(name)) <= Rank(worst)
      ensures worst == GREEN || exists name :: ConfirmedFor(name) == worst
    {
      worst := Worst(series);
      forall name
        ensures Rank(ConfirmedFor(name)) <= Rank(worst)
      {
        SeriesShowsConfirmed(name);
      }
      if worst != GREEN {
        var name :| name in series && series[name].currentSeverity == worst;
        SeriesShowsConfirmed(name);
      }
    }
  }

  method Worst(series: map<string, SeriesState>) returns (worst: Severity)
    ensures forall name :: name in series ==> Rank(series[name].currentSeverity) <= Rank(worst)
    ensures worst == GREEN || exists name :: name in series && series[name].currentSeverity == worst
  {
    worst := GREEN;
    var left := series.Keys;
    while left != {}
      invariant left <= series.Keys
      invariant forall name :: name in series.Keys - left ==> Rank(series[name].currentSeverity) <= Rank(worst)
      invariant worst == GREEN || exists name :: name in series && series[name].currentSeverity == worst
      decreases left
    {
      var name :| name in left;
      if Rank(series[name].currentSeverity) > Rank(worst) {
        worst := series[name].currentSeverity;
      }
      left := left - {name};
    }
  }

  lemma {:induction false} FoldSnoc(n: nat, obs: seq<Severity>, band: Severity)
    ensures Fold(n, obs + [band]) == Some(Observe(n, Fold(n, obs), band))
  {
    assert (obs + [band])[..|obs|] == obs;
  }

  lemma {:induction false} CountIsRun(n: nat, obs: seq<Severity>, band: Severity)
    requires n >= 1
    ensures Count(Fold(n, obs), band).currentSeverity == Confirmed(obs, n)
    ensures Count(Fold(n, obs), band).consecutive == RunLength(obs + [band])
  {
    assert (obs + [band])[..|obs|] == obs;
    if obs != [] {
      FoldIsConfirmed(n, obs);
    }
  }
}
