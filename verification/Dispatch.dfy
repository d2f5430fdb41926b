/**
 * Battery dispatch: the governed envelope, the deterministic fallback proposer, the
 * baseline policy, and the replay that turns allowed actions into a realised result.
 *
 * Prices, energy and money are exact reals; `Fixed2` is the one rounding the code
 * performs on values that are used again.
 */
module Dispatch {
  import opened Prelude

  datatype Asset = Asset(
    ratedPowerMw: real,
    ratedEnergyMwh: real,
    socMwh: real,
    degradationEurPerMwhCycled: real,
    reliabilityScore: real)

  datatype Tick = Tick(timestamp: string, dam: real, fcr: real, timeOfDay: int)

  datatype ActionType = Charge | Discharge | Hold | FcrBid | AfrrBidUp | AfrrBidDown

  datatype Action = Action(
    kind: ActionType,
    timestamp: string,
    volumeMwh: Option<real>,
    volumeMw: Option<real>,
    price: Option<real>,
    confidence: real)

  datatype Envelope = Envelope(
    chargeCandidates: seq<Tick>,
    dischargeCandidates: seq<Tick>,
    reserveCandidates: seq<Tick>,
    maxCyclesPerDay: real,
    socFloorMwh: real,
    socCeilingMwh: real)

  // ---------------------------------------------------------------------------
  // Sorting by price and the quantile thresholds
  // ---------------------------------------------------------------------------

  ghost predicate SortedByPrice(s: seq<Tick>) {
    forall i, j :: 0 <= i < j < |s| ==> s[i].dam <= s[j].dam
  }

  /** `t` goes after every element that is not dearer, so equal prices keep their order. */
  function InsertByPrice(s: seq<Tick>, t: Tick): (r: seq<Tick>)
    requires SortedByPrice(s)
    ensures |r| == |s| + 1 && SortedByPrice(r)
    ensures r[|s|] == t || (s != [] && r[|s|] == s[|s| - 1])
  {
    if s == [] || s[|s| - 1].dam <= t.dam then s + [t]
    else InsertByPrice(s[..|s| - 1], t) + [s[|s| - 1]]
  }

  /** The stable sort of `[...ticks].sort((a, b) => a.dam - b.dam)`. */
  function SortByPrice(ticks: seq<Tick>): (r: seq<Tick>)
    ensures |r| == |ticks| && SortedByPrice(r)
  {
    if ticks == [] then []
    else InsertByPrice(SortByPrice(ticks[..|ticks| - 1]), ticks[|ticks| - 1])
  }

  lemma {:induction false} AtPriceSnoc(s: seq<Tick>, t: Tick, price: real)
    ensures AtPrice(s + [t], price) == AtPrice(s, price) + if t.dam == price then [t] else []
  {
    assert (s + [t])[..|s|] == s;
  }

  lemma {:induction false} InsertIsStable(s: seq<Tick>, t: Tick, price: real)
    requires SortedByPrice(s)
    ensures AtPrice(InsertByPrice(s, t), price) == AtPrice(s + [t], price)
  {
    hide AtPrice;
    if s != [] && s[|s| - 1].dam > t.dam {
      var front, last := s[..|s| - 1], s[|s| - 1];
      InsertIsStable(front, t, price);
      var r := InsertByPrice(front, t);
      AtPriceSnoc(r, last, price);
      AtPriceSnoc(front, last, price);
      AtPriceSnoc(front, t, price);
      AtPriceSnoc(s, t, price);
      assert front + [last] == s;
      assert InsertByPrice(s, t) == r + [last];
    }
  }

  /** The ticks at one price, in order. */
  function AtPrice(s: seq<Tick>, price: real): seq<Tick> {
    Filter((t: Tick) => t.dam == price, s)
  }

  /**
   * With sortedness, this fixes the sort completely: at every price the sorted day holds
   * the ticks of the original day, in their original order.
   */
  lemma {:induction false} SortIsStable(ticks: seq<Tick>, price: real)
    ensures AtPrice(SortByPrice(ticks), price) == AtPrice(ticks, price)
  {
    if ticks != [] {
      var front, last := ticks[..|ticks| - 1], ticks[|ticks| - 1];
      SortIsStable(front, price);
      InsertIsStable(SortByPrice(front), last, price);
      AtPriceSnoc(SortByPrice(front), last, price);
      AtPriceSnoc(front, last, price);
      assert front + [last] == ticks;
    }
  }

  function SpikeThreshold(ticks: seq<Tick>): real
    requires ticks != []
  {
    SortByPrice(ticks)[|ticks| * 7 / 10].dam
  }

  function ValleyThreshold(ticks: seq<Tick>): real
    requires ticks != []
  {
    SortByPrice(ticks)[|ticks| * 3 / 10].dam
  }

  /** Fails, as the code does, on an empty day: there is no tick to read a quantile from. */
  function GenerateGovernedEnvelope(asset: Asset, ticks: seq<Tick>): Result<Envelope, string> {
    if ticks == [] then Failure("TypeError: no tick at the quantile index")
    else
      Success(Envelope(
        Filter((t: Tick) => t.dam <= ValleyThreshold(ticks), ticks),
        Filter((t: Tick) => t.dam >= SpikeThreshold(ticks), ticks),
        Filter((t: Tick) => t.fcr >= 68.0, ticks),
        1.5,
        asset.ratedEnergyMwh * 0.10,
        asset.ratedEnergyMwh * 0.95))
  }

  /** How many ticks are cheaper than `x`, and how many cost at most `x`. */
  function CheaperThan(ticks: seq<Tick>, x: real): nat {
    |Filter((t: Tick) => t.dam < x, ticks)|
  }

  function AtMost(ticks: seq<Tick>, x: real): nat {
    |Filter((t: Tick) => t.dam <= x, ticks)|
  }

  lemma {:induction false} FilterSnoc(keep: Tick -> bool, s: seq<Tick>, t: Tick)
    ensures Filter(keep, s + [t]) == Filter(keep, s) + if keep(t) then [t] else []
  {
    assert (s + [t])[..|s|] == s;
  }

  /** Sorting keeps how many ticks any test accepts. */
  lemma {:induction false} InsertKeepsCount(keep: Tick -> bool, s: seq<Tick>, t: Tick)
    requires SortedByPrice(s)
    ensures |Filter(keep, InsertByPrice(s, t))| == |Filter(keep, s)| + if keep(t) then 1 else 0
  {
    hide Filter;
    if s == [] || s[|s| - 1].dam <= t.dam {
      FilterSnoc(keep, s, t);
    } else {
      var front, last := s[..|s| - 1], s[|s| - 1];
      InsertKeepsCount(keep, front, t);
      FilterSnoc(keep, InsertByPrice(front, t), last);
      FilterSnoc(keep, front, last);
      assert front + [last] == s;
      assert InsertByPrice(s, t) == InsertByPrice(front, t) + [last];
    }
  }

  lemma {:induction false} SortKeepsCount(keep: Tick -> bool, ticks: seq<Tick>)
    ensures |Filter(keep, SortByPrice(ticks))| == |Filter(keep, ticks)|
  {
    hide Filter, InsertByPrice;
    if ticks != [] {
      var front, last := ticks[..|ticks| - 1], ticks[|ticks| - 1];
      SortKeepsCount(keep, front);
      InsertKeepsCount(keep, SortByPrice(front), last);
      FilterSnoc(keep, front, last);
      assert front + [last] == ticks;
    }
  }

  lemma {:induction false} FilterIsNoLonger(keep: Tick -> bool, s: seq<Tick>)
    ensures |Filter(keep, s)| <= |s|
    ensures (forall t :: t in s ==> keep(t)) ==> |Filter(keep, s)| == |s|
  {
    if s != [] {
      FilterIsNoLonger(keep, s[..|s| - 1]);
      assert s == s[..|s| - 1] + [s[|s| - 1]];
    }
  }

  lemma {:induction false} SortedRank(s: seq<Tick>, k: nat)
    requires SortedByPrice(s) && k < |s|
    ensures CheaperThan(s, s[k].dam) <= k < AtMost(s, s[k].dam)
  {
    hide Filter;
    var front, last, x := s[..|s| - 1], s[|s| - 1], s[k].dam;
    assert front + [last] == s;
    FilterSnoc((t: Tick) => t.dam < x, front, last);
    FilterSnoc((t: Tick) => t.dam <= x, front, last);
    if k < |front| {
      SortedRank(front, k);
    } else {
      FilterIsNoLonger((t: Tick) => t.dam < x, front);
      FilterIsNoLonger((t: Tick) => t.dam <= x, front);
    }
  }

  /**
   * The thresholds are the 30 and the 70 per cent quantiles of the day's prices: at most three
   * (seven) tenths of its ticks are cheaper, and more than that cost no more.
   */
  lemma {:induction false} ThresholdsAreQuantiles(ticks: seq<Tick>)
    requires ticks != []
    ensures CheaperThan(ticks, ValleyThreshold(ticks)) <= |ticks| * 3 / 10 < AtMost(ticks, ValleyThreshold(ticks))
    ensures CheaperThan(ticks, SpikeThreshold(ticks)) <= |ticks| * 7 / 10 < AtMost(ticks, SpikeThreshold(ticks))
  {
    hide Filter, SortByPrice;
    RankIsQuantile(ticks, |ticks| * 3 / 10);
    RankIsQuantile(ticks, |ticks| * 7 / 10);
  }

  lemma {:induction false} RankIsQuantile(ticks: seq<Tick>, k: nat)
    requires k < |ticks|
    ensures var x := SortByPrice(ticks)[k].dam; CheaperThan(ticks, x) <= k < AtMost(ticks, x)
  {
    hide Filter, SortByPrice;
    var x := SortByPrice(ticks)[k].dam;
    SortedRank(SortByPrice(ticks), k);
    SortKeepsCount((t: Tick) => t.dam < x, ticks);
    SortKeepsCount((t: Tick) => t.dam <= x, ticks);
  }

  /** What the envelope holds: the candidates are exactly the ticks past each threshold, and the limits are shares. */
  lemma {:induction false} EnvelopeIsExact(asset: Asset, ticks: seq<Tick>)
    ensures GenerateGovernedEnvelope(asset, ticks).Failure? <==> ticks == []
    ensures ticks != [] ==>
      var e := GenerateGovernedEnvelope(asset, ticks).value;
      && (forall t :: t in e.chargeCandidates <==> t in ticks && t.dam <= ValleyThreshold(ticks))
      && (forall t :: t in e.dischargeCandidates <==> t in ticks && t.dam >= SpikeThreshold(ticks))
      && (forall t :: t in e.reserveCandidates <==> t in ticks && t.fcr >= 68.0)
      && 10.0 * e.socFloorMwh == asset.ratedEnergyMwh && 20.0 * e.socCeilingMwh == 19.0 * asset.ratedEnergyMwh
      && 2.0 * e.maxCyclesPerDay == 3.0
  {
    hide Filter, ValleyThreshold, SpikeThreshold;
    if ticks != [] {
      FilterMembers((t: Tick) => t.dam <= ValleyThreshold(ticks), ticks);
      FilterMembers((t: Tick) => t.dam >= SpikeThreshold(ticks), ticks);
      FilterMembers((t: Tick) => t.fcr >= 68.0, ticks);
    }
  }

  // ---------------------------------------------------------------------------
  // Moves, and the ledger both policies keep
  // ---------------------------------------------------------------------------

  datatype Move = Buy(volume: real) | Sell(volume: real) | Reserve(bidMw: real) | Rest

  /** `trading + reserve` is the code's single `revenue` accumulator; `moves` has one entry per tick. */
  datatype Ledger = Ledger(soc: real, cycled: real, trading: real, reserve: real, moves: seq<Move>)

  function Hours(ticks: seq<Tick>): set<int> {
    set t | t in ticks :: t.timeOfDay
  }

  /** What the fallback fixes before its loop: the three hour sets and the numeric limits. */
  datatype Limits = Limits(
    powerMw: real,
    bidMw: real,
    floor: real,
    ceiling: real,
    budget: real,
    chargeHours: set<int>,
    dischargeHours: set<int>,
    reserveHours: set<int>)

  function LimitsOf(a: Asset, e: Envelope): Limits {
    Limits(a.ratedPowerMw, Times(a.ratedPowerMw, a.reliabilityScore), e.socFloorMwh, e.socCeilingMwh,
           Times(e.maxCyclesPerDay, a.ratedEnergyMwh),
           Hours(e.chargeCandidates), Hours(e.dischargeCandidates), Hours(e.reserveCandidates))
  }

  function Post(l: Ledger, t: Tick, m: Move): Ledger {
    match m
    case Buy(v) => Ledger(l.soc + v, l.cycled + v, l.trading - Times(v, t.dam), l.reserve, l.moves + [m])
    case Sell(v) => Ledger(l.soc - v, l.cycled + v, l.trading + Times(v, t.dam), l.reserve, l.moves + [m])
    case Reserve(bid) => Ledger(l.soc, l.cycled, l.trading, l.reserve + Times(bid, t.fcr), l.moves + [m])
    case Rest => l.(moves := l.moves + [m])
  }

  /** The ledger after making `moves[i]` at `ticks[i]`, in order, starting from `soc`. */
  function Book(soc: real, ticks: seq<Tick>, moves: seq<Move>): Ledger
    requires |ticks| == |moves|
  {
    if ticks == [] then Ledger(soc, 0.0, 0.0, 0.0, [])
    else
      var n := |ticks| - 1;
      Post(Book(soc, ticks[..n], moves[..n]), ticks[n], moves[n])
  }

  /** What the fallback does with one tick, given the running SoC and cycled energy. */
  function Decide(lim: Limits, t: Tick, soc: real, cycled: real): Move {
    var buy := MinR(MinR(lim.powerMw, lim.ceiling - soc), lim.budget - cycled);
    var sell := MinR(MinR(lim.powerMw, soc - lim.floor), lim.budget - cycled);
    if t.timeOfDay in lim.reserveHours && lim.floor + lim.powerMw < soc < lim.ceiling - lim.powerMw
    then Reserve(lim.bidMw)
    else if t.timeOfDay in lim.chargeHours && soc < lim.ceiling && cycled < lim.budget && buy > 0.1
    then Buy(buy)
    else if t.timeOfDay in lim.dischargeHours && soc > lim.floor && cycled < lim.budget && sell > 0.1
    then Sell(sell)
    else Rest
  }

  /** Charging by `v` keeps within the power, the ceiling and the daily budget; discharging likewise with the floor. */
  predicate ChargeFits(lim: Limits, soc: real, cycled: real, v: real) {
    v <= lim.powerMw && soc + v <= lim.ceiling && cycled + v <= lim.budget
  }

  predicate DischargeFits(lim: Limits, soc: real, cycled: real, v: real) {
    v <= lim.powerMw && soc - v >= lim.floor && cycled + v <= lim.budget
  }

  /** In a reserve hour, with a full power step of headroom both ways. */
  predicate CanReserve(lim: Limits, t: Tick, soc: real) {
    t.timeOfDay in lim.reserveHours && soc - lim.powerMw > lim.floor && soc + lim.powerMw < lim.ceiling
  }

  ghost predicate CanCharge(lim: Limits, t: Tick, soc: real, cycled: real) {
    t.timeOfDay in lim.chargeHours && exists v :: v > 0.1 && ChargeFits(lim, soc, cycled, v)
  }

  ghost predicate CanDischarge(lim: Limits, t: Tick, soc: real, cycled: real) {
    t.timeOfDay in lim.dischargeHours && exists v :: v > 0.1 && DischargeFits(lim, soc, cycled, v)
  }

  /**
   * What is decided, and when: reserve before charging before discharging, each exactly when it
   * can be done by more than 0.1 MWh, and then by the most that fits.
   */
  lemma {:induction false} DecisionIsExact(lim: Limits, t: Tick, soc: real, cycled: real)
    ensures var m := Decide(lim, t, soc, cycled);
      && (m.Reserve? <==> CanReserve(lim, t, soc))
      && (m.Buy? <==> !CanReserve(lim, t, soc) && CanCharge(lim, t, soc, cycled))
      && (m.Sell? <==> !CanReserve(lim, t, soc) && !CanCharge(lim, t, soc, cycled) && CanDischarge(lim, t, soc, cycled))
      && (m.Reserve? ==> m.bidMw == lim.bidMw)
      && (m.Buy? ==> 0.1 < m.volume && forall v :: ChargeFits(lim, soc, cycled, v) <==> v <= m.volume)
      && (m.Sell? ==> 0.1 < m.volume && forall v :: DischargeFits(lim, soc, cycled, v) <==> v <= m.volume)
  {
    var buy := MinR(MinR(lim.powerMw, lim.ceiling - soc), lim.budget - cycled);
    var sell := MinR(MinR(lim.powerMw, soc - lim.floor), lim.budget - cycled);
    assert ChargeFits(lim, soc, cycled, buy) && DischargeFits(lim, soc, cycled, sell);
  }

  function Propose(t: Tick, m: Move): Action {
    match m
    case Buy(v) => Action(Charge, t.timestamp, Some(Fixed2(v)), None, Some(t.dam), 0.92)
    case Sell(v) => Action(Discharge, t.timestamp, Some(Fixed2(v)), None, Some(t.dam), 0.90)
    case Reserve(bid) => Action(FcrBid, t.timestamp, None, Some(Fixed2(bid)), Some(t.fcr), 0.86)
    case Rest => Action(Hold, t.timestamp, None, None, None, 0.95)
  }

  /** The actions published for a list of moves, one per tick. */
  function Publish(ticks: seq<Tick>, moves: seq<Move>): (r: seq<Action>)
    requires |ticks| == |moves|
    ensures |r| == |ticks|
  {
    if ticks == [] then []
    else
      var n := |ticks| - 1;
      Publish(ticks[..n], moves[..n]) + [Propose(ticks[n], moves[n])]
  }

  /** The fallback's ledger after `ticks`, starting from `soc`. */
  function Plan(soc: real, lim: Limits, ticks: seq<Tick>): (l: Ledger)
    ensures |l.moves| == |ticks|
  {
    if ticks == [] then Ledger(soc, 0.0, 0.0, 0.0, [])
    else
      var l := Plan(soc, lim, ticks[..|ticks| - 1]);
      var t := ticks[|ticks| - 1];
      Post(l, t, Decide(lim, t, l.soc, l.cycled))
  }

  function SumConfidence(actions: seq<Action>): real {
    if actions == [] then 0.0
    else SumConfidence(actions[..|actions| - 1]) + actions[|actions| - 1].confidence
  }

  datatype Proposal = Proposal(
    actions: seq<Action>,
    expectedRevenueEur: real,
    expectedDegradationEur: real,
    expectedNetEur: real,
    meanConfidence: real)

  /** One iteration of the fallback loop; each `return` is a `continue` of the code. */
  method FallbackTick(lim: Limits, tick: Tick, ghost l: Ledger, soc: real, revenue: real, mwhCycled: real)
    returns (soc': real, revenue': real, mwhCycled': real, action: Action)
    requires soc == l.soc && mwhCycled == l.cycled && revenue == l.trading + l.reserve
    ensures var m := Decide(lim, tick, soc, mwhCycled);
      var l' := Post(l, tick, m);
      && action == Propose(tick, m)
      && soc' == l'.soc && mwhCycled' == l'.cycled && revenue' == l'.trading + l'.reserve
  {
    soc', revenue', mwhCycled' := soc, revenue, mwhCycled;
    if tick.timeOfDay in lim.reserveHours && soc > lim.floor + lim.powerMw && soc < lim.ceiling - lim.powerMw {
      revenue' := revenue + Times(lim.bidMw, tick.fcr);
      action := Action(FcrBid, tick.timestamp, None, Some(Fixed2(lim.bidMw)), Some(tick.fcr), 0.86);
      return;
    }
    if tick.timeOfDay in lim.chargeHours && soc < lim.ceiling && mwhCycled < lim.budget {
      var volume := MinR(MinR(lim.powerMw, lim.ceiling - soc), lim.budget - mwhCycled);
      if volume > 0.1 {
        soc' := soc + volume;
        mwhCycled' := mwhCycled + volume;
        revenue' := revenue - Times(volume, tick.dam);
        action := Action(Charge, tick.timestamp, Some(Fixed2(volume)), None, Some(tick.dam), 0.92);
        return;
      }
    }
    if tick.timeOfDay in lim.dischargeHours && soc > lim.floor && mwhCycled < lim.budget {
      var volume := MinR(MinR(lim.powerMw, soc - lim.floor), lim.budget - mwhCycled);
      if volume > 0.1 {
        soc' := soc - volume;
        mwhCycled' := mwhCycled + volume;
        revenue' := revenue + Times(volume, tick.dam);
        action := Action(Discharge, tick.timestamp, Some(Fixed2(volume)), None, Some(tick.dam), 0.90);
        return;
      }
    }
    action := Action(ActionType.Hold, tick.timestamp, None, None, None, 0.95);
  }

  /** The closing figures, rounded once at the end of the run. */
  function Summarise(actions: seq<Action>, revenue: real, degradation: real): Proposal {
    Proposal(actions, Fixed2(revenue), Fixed2(degradation), Fixed2(revenue - degradation),
             if actions == [] then 0.0 else SumConfidence(actions) / |actions| as real)
  }

  /** The action shows the move at its tick: its kind, time, price and fixed confidence, and its volume to 0.005. */
  predicate Shows(act: Action, t: Tick, m: Move) {
    && act.timestamp == t.timestamp
    && match m
       case Buy(v) =>
         && act.kind == Charge && act.price == Some(t.dam) && act.confidence == 0.92 && act.volumeMw == None
         && act.volumeMwh.Some? && AbsR(act.volumeMwh.value - v) <= 0.005
       case Sell(v) =>
         && act.kind == Discharge && act.price == Some(t.dam) && act.confidence == 0.90 && act.volumeMw == None
         && act.volumeMwh.Some? && AbsR(act.volumeMwh.value - v) <= 0.005
       case Reserve(bid) =>
         && act.kind == FcrBid && act.price == Some(t.fcr) && act.confidence == 0.86 && act.volumeMwh == None
         && act.volumeMw.Some? && AbsR(act.volumeMw.value - bid) <= 0.005
       case Rest =>
         && act.kind == ActionType.Hold && act.price == None && act.confidence == 0.95
         && act.volumeMwh == None && act.volumeMw == None
  }

  lemma {:induction false} PublishedShow(ticks: seq<Tick>, moves: seq<Move>)
    requires |ticks| == |moves|
    ensures forall i :: 0 <= i < |ticks| ==> Shows(Publish(ticks, moves)[i], ticks[i], moves[i])
  {
    hide Fixed2;
    if ticks != [] {
      var n := |ticks| - 1;
      PublishedShow(ticks[..n], moves[..n]);
      match moves[n] {
        case Buy(v) => Fixed2IsClose(v);
        case Sell(v) => Fixed2IsClose(v);
        case Reserve(bid) => Fixed2IsClose(bid);
        case Rest =>
      }
    }
  }

  /** A mean: as far above some actions as below others, and nought of none. */
  ghost predicate IsMeanConfidence(mean: real, actions: seq<Action>) {
    && (actions == [] ==> mean == 0.0)
    && (actions != [] ==>
          && Times(mean, |actions| as real) == SumConfidence(actions)
          && (exists i :: 0 <= i < |actions| && actions[i].confidence <= mean)
          && (exists i :: 0 <= i < |actions| && actions[i].confidence >= mean))
  }

  lemma {:induction false} SumOfLarger(actions: seq<Action>, x: real)
    ensures (forall i :: 0 <= i < |actions| ==> actions[i].confidence > x) && actions != [] ==>
      SumConfidence(actions) > Times(|actions| as real, x)
    ensures (forall i :: 0 <= i < |actions| ==> actions[i].confidence < x) && actions != [] ==>
      SumConfidence(actions) < Times(|actions| as real, x)
    ensures actions == [] ==> SumConfidence(actions) == 0.0
  {
    if actions != [] {
      var n := |actions| - 1;
      SumOfLarger(actions[..n], x);
      TimesSum(n as real, 1.0, x);
      assert Times(1.0, x) == x && Times(0.0, x) == 0.0;
    }
  }

  lemma {:induction false} MeanIsMean(actions: seq<Action>)
    requires actions != []
    ensures IsMeanConfidence(SumConfidence(actions) / |actions| as real, actions)
  {
    hide SumConfidence, Times;
    var mean := SumConfidence(actions) / |actions| as real;
    TimesDivided(SumConfidence(actions), |actions| as real);
    SumOfLarger(actions, mean);
  }

  lemma {:induction false} TimesDivided(x: real, n: real)
    requires n > 0.0
    ensures Times(x / n, n) == x && Times(n, x / n) == x
  {
  }

  /**
   * The `deterministicFallback` loop, proved against `Plan`: each action shows its move, and the
   * closing figures are the income, the cycling cost and their difference, to half a cent.
   */
  method DeterministicFallback(a: Asset, ticks: seq<Tick>, e: Envelope) returns (p: Proposal)
    ensures var l := Plan(a.socMwh, LimitsOf(a, e), ticks);
      p == Summarise(Publish(ticks, l.moves), l.trading + l.reserve, Times(l.cycled, a.degradationEurPerMwhCycled))
    ensures var l := Plan(a.socMwh, LimitsOf(a, e), ticks);
      var income, cost := l.trading + l.reserve, Times(l.cycled, a.degradationEurPerMwhCycled);
      && |p.actions| == |ticks|
      && (forall i :: 0 <= i < |ticks| ==> Shows(p.actions[i], ticks[i], l.moves[i]))
      && IsCents(p.expectedRevenueEur, income) && IsCents(p.expectedDegradationEur, cost)
      && IsCents(p.expectedNetEur, income - cost)
    ensures IsMeanConfidence(p.meanConfidence, p.actions)
  {
    hide Plan, Publish, Fixed2, Shows, IsCents, SumConfidence;
    var lim := LimitsOf(a, e);
    var actions, revenue, mwhCycled := FallbackLoop(a.socMwh, lim, ticks);
    var degradation := Times(mwhCycled, a.degradationEurPerMwhCycled);
    p := Summarise(actions, revenue, degradation);
    PublishedShow(ticks, Plan(a.socMwh, lim, ticks).moves);
    Fixed2IsCents(revenue);
    Fixed2IsCents(degradation);
    Fixed2IsCents(revenue - degradation);
    if actions != [] {
      MeanIsMean(actions);
    }
  }

  method FallbackLoop(start: real, lim: Limits, ticks: seq<Tick>)
    returns (actions: seq<Action>, revenue: real, mwhCycled: real)
    ensures var l := Plan(start, lim, ticks);
      && actions == Publish(ticks, l.moves) && revenue == l.trading + l.reserve && mwhCycled == l.cycled
  {
    hide Plan, Post, Decide, Publish, Propose;
    PlanStarts(start, lim);
    actions := [];
    var soc := start;
    revenue, mwhCycled := 0.0, 0.0;
    for i := 0 to |ticks|
      invariant var l := Plan(start, lim, ticks[..i]);
        && soc == l.soc && mwhCycled == l.cycled && revenue == l.trading + l.reserve
        && actions == Publish(ticks[..i], l.moves)
    {
      PlanSnoc(start, lim, ticks[..i], ticks[i]);
      assert ticks[..i + 1] == ticks[..i] + [ticks[i]];
      var action;
      soc, revenue, mwhCycled, action :=
        FallbackTick(lim, ticks[i], Plan(start, lim, ticks[..i]), soc, revenue, mwhCycled);
      actions := actions + [action];
    }
    assert ticks[..|ticks|] == ticks;
  }

  lemma {:induction false} PlanStarts(soc: real, lim: Limits)
    ensures Plan(soc, lim, []) == Ledger(soc, 0.0, 0.0, 0.0, []) && Publish([], []) == []
  {
  }

  lemma {:induction false} PlanSnoc(soc: real, lim: Limits, ticks: seq<Tick>, t: Tick)
    ensures var l := Plan(soc, lim, ticks);
      var m := Decide(lim, t, l.soc, l.cycled);
      && Plan(soc, lim, ticks + [t]) == Post(l, t, m) && Post(l, t, m).moves == l.moves + [m]
      && Publish(ticks + [t], l.moves + [m]) == Publish(ticks, l.moves) + [Propose(t, m)]
  {
    assert (ticks + [t])[..|ticks|] == ticks;
    var l := Plan(soc, lim, ticks);
    var m := Decide(lim, t, l.soc, l.cycled);
    assert (l.moves + [m])[..|ticks|] == l.moves;
  }

  // ---------------------------------------------------------------------------
  // Envelope safety, for any envelope and any prices
  // ---------------------------------------------------------------------------

  lemma {:induction false} PlanStaysInEnvelope(soc: real, lim: Limits, ticks: seq<Tick>)
    ensures var l := Plan(soc, lim, ticks);
      && MinR(soc, lim.floor) <= l.soc <= MaxR(soc, lim.ceiling)
      && 0.0 <= l.cycled <= MaxR(0.0, lim.budget)
  {
    if ticks != [] {
      PlanStaysInEnvelope(soc, lim, ticks[..|ticks| - 1]);
    }
  }

  /** A reserve bid is only ever made with a full power step of headroom both ways. */
  lemma {:induction false} ReserveBidsKeepHeadroom(soc: real, lim: Limits, ticks: seq<Tick>, i: nat)
    requires i < |ticks| && Plan(soc, lim, ticks).moves[i].Reserve?
    ensures var here := Plan(soc, lim, ticks[..i]).soc;
      && lim.floor < here - lim.powerMw && here + lim.powerMw < lim.ceiling
  {
    var front := ticks[..|ticks| - 1];
    if i < |front| {
      assert front[..i] == ticks[..i];
      ReserveBidsKeepHeadroom(soc, lim, front, i);
    }
  }

  // ---------------------------------------------------------------------------
  // Trading never loses against the valley price
  // ---------------------------------------------------------------------------

  /**
   * Ticks that share an hour lie on one side of the thresholds: with a tick at or below the
   * valley price all of its hour are, and with one at or above the spike price none is below the
   * valley.
   */
  ghost predicate HoursSeparate(ticks: seq<Tick>)
    requires ticks != []
  {
    forall i, j :: 0 <= i < |ticks| && 0 <= j < |ticks| && ticks[i].timeOfDay == ticks[j].timeOfDay ==>
      && (ticks[i].dam <= ValleyThreshold(ticks) ==> ticks[j].dam <= ValleyThreshold(ticks))
      && (ticks[i].dam >= SpikeThreshold(ticks) ==> ticks[j].dam >= ValleyThreshold(ticks))
  }

  lemma {:induction false} ValleyBelowSpike(ticks: seq<Tick>)
    requires ticks != []
    ensures ValleyThreshold(ticks) <= SpikeThreshold(ticks)
  {
    var i, j := |ticks| * 3 / 10, |ticks| * 7 / 10;
    assert i <= j;
  }

  ghost predicate DistinctHours(ticks: seq<Tick>) {
    forall i, j :: 0 <= i < j < |ticks| ==> ticks[i].timeOfDay != ticks[j].timeOfDay
  }

  /** An hour names one price. */
  ghost predicate HoursAgree(ticks: seq<Tick>) {
    forall s, t :: s in ticks && t in ticks && s.timeOfDay == t.timeOfDay ==> s.dam == t.dam
  }

  /** One price an hour is enough, so one tick an hour is. */
  lemma {:induction false} DistinctHoursSeparate(ticks: seq<Tick>)
    requires ticks != []
    ensures DistinctHours(ticks) ==> HoursAgree(ticks)
    ensures HoursAgree(ticks) ==> HoursSeparate(ticks)
  {
    hide ValleyThreshold, SpikeThreshold;
    ValleyBelowSpike(ticks);
    assert forall i :: 0 <= i < |ticks| ==> ticks[i] in ticks;
  }

  /** Every tick the policy may buy in is priced at most `theta`, every tick it may sell in at least `theta`. */
  ghost predicate PricedAround(buyHours: set<int>, sellHours: set<int>, ticks: seq<Tick>, theta: real) {
    forall i :: 0 <= i < |ticks| ==>
      && (ticks[i].timeOfDay in buyHours ==> ticks[i].dam <= theta)
      && (ticks[i].timeOfDay in sellHours ==> ticks[i].dam >= theta)
  }

  /** A tick the policy may buy in above `theta`, or sell in below it. */
  predicate Misplaced(buyHours: set<int>, sellHours: set<int>, t: Tick, theta: real) {
    (t.timeOfDay in buyHours && t.dam > theta) || (t.timeOfDay in sellHours && t.dam < theta)
  }

  ghost predicate MoveFits(m: Move, t: Tick, theta: real) {
    && (m.Buy? ==> m.volume >= 0.0 && t.dam <= theta)
    && (m.Sell? ==> m.volume >= 0.0 && t.dam >= theta)
  }

  ghost predicate MovesFit(ticks: seq<Tick>, moves: seq<Move>, theta: real) {
    |ticks| == |moves| && forall i :: 0 <= i < |ticks| ==> MoveFits(moves[i], ticks[i], theta)
  }

  /** Buying at or below `theta` and selling at or above it never lowers `trading + theta * soc`. */
  lemma {:induction false} PostKeepsFloor(l: Ledger, t: Tick, m: Move, theta: real)
    requires MoveFits(m, t, theta)
    ensures var l' := Post(l, t, m); l.trading + Times(l.soc, theta) <= l'.trading + Times(l'.soc, theta)
  {
    match m
    case Buy(v) =>
      TimesOrder(v, t.dam, theta);
      TimesSum(l.soc, v, theta);
    case Sell(v) =>
      TimesOrder(v, theta, t.dam);
      TimesSum(l.soc - v, v, theta);
    case Reserve(_) =>
    case Rest =>
  }

  /** What the opening ledger has and every posting keeps, the final ledger has. */
  lemma {:induction false} BookInduction(soc: real, ticks: seq<Tick>, moves: seq<Move>, inv: Ledger -> bool)
    requires |ticks| == |moves|
    requires inv(Ledger(soc, 0.0, 0.0, 0.0, []))
    requires forall i, l {:trigger Post(l, ticks[i], moves[i])} :: 0 <= i < |ticks| && inv(l) ==>
      inv(Post(l, ticks[i], moves[i]))
    ensures inv(Book(soc, ticks, moves))
  {
    if ticks != [] {
      var n := |ticks| - 1;
      BookInduction(soc, ticks[..n], moves[..n], inv);
    }
  }

  lemma {:induction false} BookKeepsFloor(soc: real, ticks: seq<Tick>, moves: seq<Move>, theta: real)
    requires MovesFit(ticks, moves, theta)
    ensures var l := Book(soc, ticks, moves); Times(soc, theta) <= l.trading + Times(l.soc, theta)
  {
    var inv := (l: Ledger) => Times(soc, theta) <= l.trading + Times(l.soc, theta);
    forall i, l {:trigger Post(l, ticks[i], moves[i])} | 0 <= i < |ticks| && inv(l)
      ensures inv(Post(l, ticks[i], moves[i]))
    {
      PostKeepsFloor(l, ticks[i], moves[i], theta);
    }
    BookInduction(soc, ticks, moves, inv);
  }

  lemma {:induction false} PlanIsBooked(soc: real, lim: Limits, ticks: seq<Tick>)
    ensures Plan(soc, lim, ticks) == Book(soc, ticks, Plan(soc, lim, ticks).moves)
  {
    if ticks != [] {
      PlanIsBooked(soc, lim, ticks[..|ticks| - 1]);
      assert Plan(soc, lim, ticks).moves[..|ticks| - 1] == Plan(soc, lim, ticks[..|ticks| - 1]).moves;
    }
  }

  lemma {:induction false} PlanMovesFit(soc: real, lim: Limits, ticks: seq<Tick>, theta: real)
    requires PricedAround(lim.chargeHours, lim.dischargeHours, ticks, theta)
    ensures MovesFit(ticks, Plan(soc, lim, ticks).moves, theta)
  {
    if ticks != [] {
      PlanMovesFit(soc, lim, ticks[..|ticks| - 1], theta);
    }
  }

  lemma {:induction false} HoursOf(ticks: seq<Tick>, keep: Tick -> bool, hour: int)
    ensures hour in Hours(Filter(keep, ticks))
      <==> exists i :: 0 <= i < |ticks| && keep(ticks[i]) && ticks[i].timeOfDay == hour
  {
    FilterMembers(keep, ticks);
    if i :| 0 <= i < |ticks| && keep(ticks[i]) && ticks[i].timeOfDay == hour {
      assert ticks[i] in Filter(keep, ticks);
    }
  }

  /** What the two candidate sets of the envelope hold, hour by hour. */
  lemma {:induction false} CandidateHours(a: Asset, ticks: seq<Tick>, hour: int)
    requires ticks != []
    ensures var e := GenerateGovernedEnvelope(a, ticks).value;
      && (hour in Hours(e.chargeCandidates) <==>
            exists i :: 0 <= i < |ticks| && ticks[i].dam <= ValleyThreshold(ticks) && ticks[i].timeOfDay == hour)
      && (hour in Hours(e.dischargeCandidates) <==>
            exists i :: 0 <= i < |ticks| && ticks[i].dam >= SpikeThreshold(ticks) && ticks[i].timeOfDay == hour)
  {
    hide ValleyThreshold, SpikeThreshold, Filter, Hours;
    HoursOf(ticks, (t: Tick) => t.dam <= ValleyThreshold(ticks), hour);
    HoursOf(ticks, (t: Tick) => t.dam >= SpikeThreshold(ticks), hour);
  }

  /** Exactly when the governed candidates straddle the valley price. */
  lemma {:induction false} EnvelopeIsPricedAround(a: Asset, ticks: seq<Tick>)
    requires ticks != []
    ensures var e := GenerateGovernedEnvelope(a, ticks).value;
      PricedAround(Hours(e.chargeCandidates), Hours(e.dischargeCandidates), ticks, ValleyThreshold(ticks))
      <==> HoursSeparate(ticks)
  {
    hide ValleyThreshold, SpikeThreshold, Hours, Filter;
    if HoursSeparate(ticks) {
      SeparateHoursArePriced(a, ticks);
    } else {
      var i, j :| 0 <= i < |ticks| && 0 <= j < |ticks| && ticks[i].timeOfDay == ticks[j].timeOfDay
        && !((ticks[i].dam <= ValleyThreshold(ticks) ==> ticks[j].dam <= ValleyThreshold(ticks))
             && (ticks[i].dam >= SpikeThreshold(ticks) ==> ticks[j].dam >= ValleyThreshold(ticks)));
      CandidateHours(a, ticks, ticks[j].timeOfDay);
    }
  }

  lemma {:induction false} SeparateHoursArePriced(a: Asset, ticks: seq<Tick>)
    requires ticks != [] && HoursSeparate(ticks)
    ensures var e := GenerateGovernedEnvelope(a, ticks).value;
      PricedAround(Hours(e.chargeCandidates), Hours(e.dischargeCandidates), ticks, ValleyThreshold(ticks))
  {
    hide ValleyThreshold, SpikeThreshold, Hours, Filter;
    var e := GenerateGovernedEnvelope(a, ticks).value;
    forall j | 0 <= j < |ticks|
      ensures ticks[j].timeOfDay in Hours(e.chargeCandidates) ==> ticks[j].dam <= ValleyThreshold(ticks)
      ensures ticks[j].timeOfDay in Hours(e.dischargeCandidates) ==> ticks[j].dam >= ValleyThreshold(ticks)
    {
      CandidateHours(a, ticks, ticks[j].timeOfDay);
    }
  }

  /** Each move of a plan is what was decided at the charge and the cycled energy reached so far. */
  lemma {:induction false} MoveIsDecided(soc: real, lim: Limits, ticks: seq<Tick>, i: nat)
    requires i < |ticks|
    ensures var here := Plan(soc, lim, ticks[..i]);
      Plan(soc, lim, ticks).moves[i] == Decide(lim, ticks[i], here.soc, here.cycled)
  {
    hide Decide;
    var front := ticks[..|ticks| - 1];
    if i < |front| {
      assert front[..i] == ticks[..i];
      MoveIsDecided(soc, lim, front, i);
    }
  }

  /** The hour of `t` has a tick that passes the test. */
  ghost predicate HourHas(ticks: seq<Tick>, t: Tick, keep: Tick -> bool) {
    exists j :: 0 <= j < |ticks| && keep(ticks[j]) && ticks[j].timeOfDay == t.timeOfDay
  }

  /** Buying only in valley hours, selling only in spike hours, within the power; bidding only the reliable share. */
  ghost predicate Governed(a: Asset, ticks: seq<Tick>, t: Tick, m: Move)
    requires ticks != []
  {
    match m
    case Buy(v) => 0.1 < v <= a.ratedPowerMw && HourHas(ticks, t, (u: Tick) => u.dam <= ValleyThreshold(ticks))
    case Sell(v) => 0.1 < v <= a.ratedPowerMw && HourHas(ticks, t, (u: Tick) => u.dam >= SpikeThreshold(ticks))
    case Reserve(bid) => bid == a.ratedPowerMw * a.reliabilityScore && HourHas(ticks, t, (u: Tick) => u.fcr >= 68.0)
    case Rest => true
  }

  lemma {:induction false} DecisionIsGoverned(a: Asset, ticks: seq<Tick>, t: Tick, soc: real, cycled: real)
    requires ticks != []
    ensures Governed(a, ticks, t,
                     Decide(LimitsOf(a, GenerateGovernedEnvelope(a, ticks).value), t, soc, cycled))
  {
    hide Decide, Hours, Filter, ValleyThreshold, SpikeThreshold, CanReserve, CanCharge, CanDischarge;
    var lim := LimitsOf(a, GenerateGovernedEnvelope(a, ticks).value);
    HoursOf(ticks, (u: Tick) => u.dam <= ValleyThreshold(ticks), t.timeOfDay);
    HoursOf(ticks, (u: Tick) => u.dam >= SpikeThreshold(ticks), t.timeOfDay);
    HoursOf(ticks, (u: Tick) => u.fcr >= 68.0, t.timeOfDay);
    DecisionIsExact(lim, t, soc, cycled);
    var m := Decide(lim, t, soc, cycled);
    DecisionKeepsHours(lim, t, soc, cycled);
  }

  lemma {:induction false} DecisionKeepsHours(lim: Limits, t: Tick, soc: real, cycled: real)
    ensures var m := Decide(lim, t, soc, cycled);
      && (m.Buy? ==> t.timeOfDay in lim.chargeHours && m.volume <= lim.powerMw)
      && (m.Sell? ==> t.timeOfDay in lim.dischargeHours && m.volume <= lim.powerMw)
      && (m.Reserve? ==> t.timeOfDay in lim.reserveHours)
  {
  }

  /**
   * On its own envelope the fallback keeps to the asset: the charge between a tenth and nineteen
   * twentieths of the rated energy, no more than one and a half rated energies cycled, and every
   * move governed.
   */
  lemma {:induction false} FallbackKeepsToAsset(a: Asset, ticks: seq<Tick>)
    requires ticks != []
    ensures var l := Plan(a.socMwh, LimitsOf(a, GenerateGovernedEnvelope(a, ticks).value), ticks);
      && MinR(a.socMwh, a.ratedEnergyMwh / 10.0) <= l.soc <= MaxR(a.socMwh, a.ratedEnergyMwh * 19.0 / 20.0)
      && 0.0 <= l.cycled <= MaxR(0.0, a.ratedEnergyMwh * 3.0 / 2.0)
      && forall i :: 0 <= i < |ticks| ==> Governed(a, ticks, ticks[i], l.moves[i])
  {
    hide Plan, Decide, Governed, Filter, Hours, ValleyThreshold, SpikeThreshold;
    var lim := LimitsOf(a, GenerateGovernedEnvelope(a, ticks).value);
    PlanStaysInEnvelope(a.socMwh, lim, ticks);
    forall i | 0 <= i < |ticks|
      ensures Governed(a, ticks, ticks[i], Plan(a.socMwh, lim, ticks).moves[i])
    {
      MoveIsDecided(a.socMwh, lim, ticks, i);
      var here := Plan(a.socMwh, lim, ticks[..i]);
      DecisionIsGoverned(a, ticks, ticks[i], here.soc, here.cycled);
    }
  }

  lemma {:induction false} PlanTradingFloor(soc: real, lim: Limits, ticks: seq<Tick>, theta: real)
    requires PricedAround(lim.chargeHours, lim.dischargeHours, ticks, theta)
    ensures var l := Plan(soc, lim, ticks); l.trading >= Times(soc - l.soc, theta)
  {
    hide Plan, Book, Times, PricedAround, MovesFit;
    PlanMovesFit(soc, lim, ticks, theta);
    PlanIsBooked(soc, lim, ticks);
    BookKeepsFloor(soc, ticks, Plan(soc, lim, ticks).moves, theta);
    TimesSum(soc - Plan(soc, lim, ticks).soc, Plan(soc, lim, ticks).soc, theta);
  }

  /**
   * On a governed envelope, trading revenue (reserve income excluded) is at least the
   * energy given up valued at the valley price, for prices of any sign.
   */
  lemma {:induction false} FallbackTradingFloor(a: Asset, ticks: seq<Tick>)
    requires ticks != [] && HoursSeparate(ticks)
    ensures var l := Plan(a.socMwh, LimitsOf(a, GenerateGovernedEnvelope(a, ticks).value), ticks);
      l.trading >= Times(a.socMwh - l.soc, ValleyThreshold(ticks))
  {
    hide Plan, ValleyThreshold, SpikeThreshold, HoursSeparate, PricedAround;
    EnvelopeIsPricedAround(a, ticks);
    PlanTradingFloor(a.socMwh, LimitsOf(a, GenerateGovernedEnvelope(a, ticks).value), ticks, ValleyThreshold(ticks));
  }

  /** Every plan with these hours, over every stretch of the day, earns theta per unit it gives up. */
  ghost predicate KeepsFloor(buyHours: set<int>, sellHours: set<int>, ticks: seq<Tick>, theta: real) {
    forall i, j, soc, lim: Limits ::
      0 <= i <= j <= |ticks| && lim.chargeHours == buyHours && lim.dischargeHours == sellHours ==>
        var l := Plan(soc, lim, ticks[i..j]); l.trading >= Times(soc - l.soc, theta)
  }

  /**
   * The exact condition: the floor is kept by every stretch of the day under every numeric
   * limit and every starting charge if and only if theta separates the two kinds of hours.
   */
  lemma {:induction false} TradingFloorExactly(buyHours: set<int>, sellHours: set<int>, ticks: seq<Tick>, theta: real)
    ensures KeepsFloor(buyHours, sellHours, ticks, theta) <==> PricedAround(buyHours, sellHours, ticks, theta)
  {
    hide Plan;
    if PricedAround(buyHours, sellHours, ticks, theta) {
      forall i, j, soc, lim: Limits
        | 0 <= i <= j <= |ticks| && lim.chargeHours == buyHours && lim.dischargeHours == sellHours
        ensures var l := Plan(soc, lim, ticks[i..j]); l.trading >= Times(soc - l.soc, theta)
      {
        PlanTradingFloor(soc, lim, ticks[i..j], theta);
      }
    } else {
      var i :| 0 <= i < |ticks| && Misplaced(buyHours, sellHours, ticks[i], theta);
      assert ticks[i..i + 1] == [ticks[i]];
      var soc, lim := MisplacedBreaksPlan(buyHours, sellHours, ticks[i], theta);
    }
  }

  lemma {:induction false} MisplacedBreaksPlan(buyHours: set<int>, sellHours: set<int>, t: Tick, theta: real)
    returns (soc: real, lim: Limits)
    requires Misplaced(buyHours, sellHours, t, theta)
    ensures lim.chargeHours == buyHours && lim.dischargeHours == sellHours
    ensures var l := Plan(soc, lim, [t]); l.trading < Times(soc - l.soc, theta)
  {
    hide Plan, Decide, Times, Publish, Propose;
    var buys := t.timeOfDay in buyHours && t.dam > theta;
    soc, lim := if buys then 0.0 else 1.0, Limits(1.0, 0.0, 0.0, 1.0, 1.0, buyHours, sellHours, {});
    PlanStarts(soc, lim);
    PlanSnoc(soc, lim, [], t);
    assert [] + [t] == [t];
    UnitMove(lim, t, buys);
    TimesUnit(t.dam);
    TimesUnit(theta);
  }

  lemma {:induction false} UnitMove(lim: Limits, t: Tick, buys: bool)
    requires lim == Limits(1.0, 0.0, 0.0, 1.0, 1.0, lim.chargeHours, lim.dischargeHours, {})
    requires t.timeOfDay in if buys then lim.chargeHours else lim.dischargeHours
    ensures Decide(lim, t, if buys then 0.0 else 1.0, 0.0) == if buys then Buy(1.0) else Sell(1.0)
  {
  }

  lemma {:induction false} TimesUnit(x: real)
    ensures Times(1.0, x) == x && Times(-1.0, x) == -x
  {
  }

  const CHEAP := Tick("", 0.0, 0.0, 0)
  const DEAR := Tick("", 100.0, 0.0, 0)
  const SMALL_BATTERY := Asset(5.0, 20.0, 10.0, 8.0, 0.88)

  lemma {:induction false} SharedHourLimits()
    ensures ValleyThreshold([CHEAP, DEAR]) == 0.0
    ensures var lim := LimitsOf(SMALL_BATTERY, GenerateGovernedEnvelope(SMALL_BATTERY, [CHEAP, DEAR]).value);
      && 0 in lim.chargeHours && lim.reserveHours == {}
      && lim.powerMw == 5.0 && lim.ceiling == 19.0 && lim.budget == 30.0
  {
    var ticks := [CHEAP, DEAR];
    assert ticks[..1] == [CHEAP];
    assert SortByPrice([CHEAP]) == [CHEAP];
    assert SortByPrice(ticks) == ticks;
    FilterMembers((t: Tick) => t.dam <= ValleyThreshold(ticks), ticks);
    FilterMembers((t: Tick) => t.fcr >= 68.0, ticks);
    assert CHEAP in ticks;
  }

  lemma {:induction false} SharedHourDecisions(lim: Limits)
    requires 0 in lim.chargeHours && lim.reserveHours == {}
    requires lim.powerMw == 5.0 && lim.ceiling == 19.0 && lim.budget == 30.0
    ensures Decide(lim, CHEAP, 10.0, 0.0) == Buy(5.0)
    ensures Decide(lim, DEAR, 15.0, 5.0) == Buy(4.0)
  {
  }

  lemma {:induction false} TwoBuys(soc: real, lim: Limits, s: Tick, t: Tick, v: real, w: real)
    requires Decide(lim, s, soc, 0.0) == Buy(v)
    requires Decide(lim, t, soc + v, v) == Buy(w)
    ensures Plan(soc, lim, [s, t]).trading == -Times(v, s.dam) - Times(w, t.dam)
  {
    hide Times, Decide, Plan, Publish;
    PlanStarts(soc, lim);
    PlanSnoc(soc, lim, [], s);
    assert [] + [s] == [s];
    PlanSnoc(soc, lim, [s], t);
    assert [s] + [t] == [s, t];
  }

  /**
   * `HoursSeparate` cannot be dropped. Two ticks sharing an hour, one cheap and one dear: the
   * hour is a charge candidate because of the cheap tick, so the dear one is bought too.
   */
  lemma {:induction false} SharedHourBreaksTradingFloor()
    ensures var (a, ticks) := (SMALL_BATTERY, [CHEAP, DEAR]);
      var l := Plan(a.socMwh, LimitsOf(a, GenerateGovernedEnvelope(a, ticks).value), ticks);
      !HoursSeparate(ticks) && l.trading < Times(a.socMwh - l.soc, ValleyThreshold(ticks))
  {
    SharedHourLimits();
    var lim := LimitsOf(SMALL_BATTERY, GenerateGovernedEnvelope(SMALL_BATTERY, [CHEAP, DEAR]).value);
    SharedHourDecisions(lim);
    TwoBuys(10.0, lim, CHEAP, DEAR, 5.0, 4.0);
  }

  // ---------------------------------------------------------------------------
  // The baseline policy: three cheapest hours in, three dearest hours out
  // ---------------------------------------------------------------------------

  function CheapestHours(ticks: seq<Tick>): set<int> {
    Hours(SortByPrice(ticks)[..Min(3, |ticks|)])
  }

  function DearestHours(ticks: seq<Tick>): set<int> {
    Hours(SortByPrice(ticks)[Max(0, |ticks| - 3)..])
  }

  function BaselineDecide(a: Asset, buyHours: set<int>, sellHours: set<int>, t: Tick, soc: real): Move {
    if t.timeOfDay in buyHours && soc < a.ratedEnergyMwh
    then Buy(MinR(a.ratedPowerMw, a.ratedEnergyMwh - soc))
    else if t.timeOfDay in sellHours && soc > 0.0 then Sell(MinR(a.ratedPowerMw, soc))
    else Rest
  }

  predicate FillFits(a: Asset, soc: real, v: real) {
    v <= a.ratedPowerMw && soc + v <= a.ratedEnergyMwh
  }

  predicate DrainFits(a: Asset, soc: real, v: real) {
    v <= a.ratedPowerMw && soc - v >= 0.0
  }

  /** The baseline fills up in its buying hours and empties in its selling ones, each time by the most that fits. */
  lemma {:induction false} BaselineDecisionIsExact(
    a: Asset, buyHours: set<int>, sellHours: set<int>, t: Tick, soc: real)
    ensures var m := BaselineDecide(a, buyHours, sellHours, t, soc);
      && (m.Buy? <==> t.timeOfDay in buyHours && soc < a.ratedEnergyMwh)
      && (m.Sell? <==> !m.Buy? && t.timeOfDay in sellHours && soc > 0.0)
      && (m.Buy? ==> forall v :: FillFits(a, soc, v) <==> v <= m.volume)
      && (m.Sell? ==> forall v :: DrainFits(a, soc, v) <==> v <= m.volume)
      && !m.Reserve?
  {
  }

  function BaselinePropose(t: Tick, m: Move): Action {
    match m
    case Buy(v) => Action(Charge, t.timestamp, Some(v), None, Some(t.dam), 1.0)
    case Sell(v) => Action(Discharge, t.timestamp, Some(v), None, Some(t.dam), 1.0)
    case _ => Action(ActionType.Hold, t.timestamp, None, None, None, 1.0)
  }

  function BaselinePublish(ticks: seq<Tick>, moves: seq<Move>): (r: seq<Action>)
    requires |ticks| == |moves|
    ensures |r| == |ticks|
  {
    if ticks == [] then []
    else
      var n := |ticks| - 1;
      BaselinePublish(ticks[..n], moves[..n]) + [BaselinePropose(ticks[n], moves[n])]
  }

  function BaselinePlan(a: Asset, buyHours: set<int>, sellHours: set<int>, ticks: seq<Tick>): (l: Ledger)
    ensures |l.moves| == |ticks|
  {
    if ticks == [] then Ledger(a.socMwh, 0.0, 0.0, 0.0, [])
    else
      var l := BaselinePlan(a, buyHours, sellHours, ticks[..|ticks| - 1]);
      var t := ticks[|ticks| - 1];
      Post(l, t, BaselineDecide(a, buyHours, sellHours, t, l.soc))
  }

  datatype PolicyRun = PolicyRun(
    finalSoc: real,
    actions: seq<Action>,
    revenueEur: real,
    degradationCostEur: real,
    netEur: real)

  /** One iteration of the `runBaselinePolicy` loop. */
  method BaselineTick(
    a: Asset, chargeHours: set<int>, dischargeHours: set<int>, tick: Tick, ghost l: Ledger,
    soc: real, revenue: real, mwhCycled: real)
    returns (soc': real, revenue': real, mwhCycled': real, action: Action)
    requires soc == l.soc && mwhCycled == l.cycled && revenue == l.trading
    ensures var m := BaselineDecide(a, chargeHours, dischargeHours, tick, soc);
      var l' := Post(l, tick, m);
      && action == BaselinePropose(tick, m)
      && soc' == l'.soc && mwhCycled' == l'.cycled && revenue' == l'.trading
  {
    soc', revenue', mwhCycled' := soc, revenue, mwhCycled;
    if tick.timeOfDay in chargeHours && soc < a.ratedEnergyMwh {
      var volume := MinR(a.ratedPowerMw, a.ratedEnergyMwh - soc);
      soc' := soc + volume;
      mwhCycled' := mwhCycled + volume;
      revenue' := revenue - Times(volume, tick.dam);
      action := Action(Charge, tick.timestamp, Some(volume), None, Some(tick.dam), 1.0);
    } else if tick.timeOfDay in dischargeHours && soc > 0.0 {
      var volume := MinR(a.ratedPowerMw, soc);
      soc' := soc - volume;
      mwhCycled' := mwhCycled + volume;
      revenue' := revenue + Times(volume, tick.dam);
      action := Action(Discharge, tick.timestamp, Some(volume), None, Some(tick.dam), 1.0);
    } else {
      action := Action(ActionType.Hold, tick.timestamp, None, None, None, 1.0);
    }
  }

  lemma {:induction false} BaselineStarts(a: Asset, buyHours: set<int>, sellHours: set<int>)
    ensures BaselinePlan(a, buyHours, sellHours, []) == Ledger(a.socMwh, 0.0, 0.0, 0.0, [])
    ensures BaselinePublish([], []) == []
  {
  }

  lemma {:induction false} BaselineSnoc(a: Asset, buyHours: set<int>, sellHours: set<int>, ticks: seq<Tick>, t: Tick)
    ensures var l := BaselinePlan(a, buyHours, sellHours, ticks);
      var m := BaselineDecide(a, buyHours, sellHours, t, l.soc);
      && BaselinePlan(a, buyHours, sellHours, ticks + [t]) == Post(l, t, m) && Post(l, t, m).moves == l.moves + [m]
      && BaselinePublish(ticks + [t], l.moves + [m]) == BaselinePublish(ticks, l.moves) + [BaselinePropose(t, m)]
  {
    assert (ticks + [t])[..|ticks|] == ticks;
    var l := BaselinePlan(a, buyHours, sellHours, ticks);
    var m := BaselineDecide(a, buyHours, sellHours, t, l.soc);
    assert (l.moves + [m])[..|ticks|] == l.moves;
  }

  method BaselineLoop(a: Asset, chargeHours: set<int>, dischargeHours: set<int>, ticks: seq<Tick>)
    returns (soc: real, actions: seq<Action>, revenue: real, mwhCycled: real)
    ensures var l := BaselinePlan(a, chargeHours, dischargeHours, ticks);
      && soc == l.soc && mwhCycled == l.cycled && revenue == l.trading
      && actions == BaselinePublish(ticks, l.moves)
  {
    hide BaselinePlan, Post, BaselineDecide, BaselinePublish, BaselinePropose;
    BaselineStarts(a, chargeHours, dischargeHours);
    actions := [];
    soc, revenue, mwhCycled := a.socMwh, 0.0, 0.0;
    for i := 0 to |ticks|
      invariant var l := BaselinePlan(a, chargeHours, dischargeHours, ticks[..i]);
        && soc == l.soc && mwhCycled == l.cycled && revenue == l.trading
        && actions == BaselinePublish(ticks[..i], l.moves)
    {
      BaselineSnoc(a, chargeHours, dischargeHours, ticks[..i], ticks[i]);
      assert ticks[..i + 1] == ticks[..i] + [ticks[i]];
      var action;
      soc, revenue, mwhCycled, action := BaselineTick(
        a, chargeHours, dischargeHours, ticks[i], BaselinePlan(a, chargeHours, dischargeHours, ticks[..i]),
        soc, revenue, mwhCycled);
      actions := actions + [action];
    }
    assert ticks[..|ticks|] == ticks;
  }

  /** The baseline's actions carry the exact volume of their move, with full confidence. */
  predicate BaselineShows(act: Action, t: Tick, m: Move) {
    && act.timestamp == t.timestamp && act.confidence == 1.0 && act.volumeMw == None
    && match m
       case Buy(v) => act.kind == Charge && act.price == Some(t.dam) && act.volumeMwh == Some(v)
       case Sell(v) => act.kind == Discharge && act.price == Some(t.dam) && act.volumeMwh == Some(v)
       case _ => act.kind == ActionType.Hold && act.price == None && act.volumeMwh == None
  }

  lemma {:induction false} BaselinePublishedShow(ticks: seq<Tick>, moves: seq<Move>)
    requires |ticks| == |moves|
    ensures forall i :: 0 <= i < |ticks| ==> BaselineShows(BaselinePublish(ticks, moves)[i], ticks[i], moves[i])
  {
    if ticks != [] {
      BaselinePublishedShow(ticks[..|ticks| - 1], moves[..|ticks| - 1]);
    }
  }

  /** `runBaselinePolicy`, proved against `BaselinePlan`; the closing figures are to half a cent. */
  method RunBaselinePolicy(a: Asset, ticks: seq<Tick>) returns (r: PolicyRun)
    ensures var l := BaselinePlan(a, CheapestHours(ticks), DearestHours(ticks), ticks);
      r == CloseRun(l.soc, BaselinePublish(ticks, l.moves), l.trading, Times(l.cycled, a.degradationEurPerMwhCycled))
    ensures var l := BaselinePlan(a, CheapestHours(ticks), DearestHours(ticks), ticks);
      var cost := Times(l.cycled, a.degradationEurPerMwhCycled);
      && |r.actions| == |ticks| && r.finalSoc == l.soc
      && (forall i :: 0 <= i < |ticks| ==> BaselineShows(r.actions[i], ticks[i], l.moves[i]))
      && IsCents(r.revenueEur, l.trading) && IsCents(r.degradationCostEur, cost) && IsCents(r.netEur, l.trading - cost)
  {
    hide BaselinePlan, BaselinePublish, CheapestHours, DearestHours, Fixed2, IsCents, BaselineShows;
    var soc, actions, revenue, mwhCycled := BaselineLoop(a, CheapestHours(ticks), DearestHours(ticks), ticks);
    var degradation := Times(mwhCycled, a.degradationEurPerMwhCycled);
    r := CloseRun(soc, actions, revenue, degradation);
    BaselinePublishedShow(ticks, BaselinePlan(a, CheapestHours(ticks), DearestHours(ticks), ticks).moves);
    Fixed2IsCents(revenue);
    Fixed2IsCents(degradation);
    Fixed2IsCents(revenue - degradation);
  }

  function CloseRun(soc: real, actions: seq<Action>, revenue: real, degradation: real): PolicyRun {
    PolicyRun(soc, actions, Fixed2(revenue), Fixed2(degradation), Fixed2(revenue - degradation))
  }

  lemma {:induction false} BaselineIsBooked(a: Asset, buyHours: set<int>, sellHours: set<int>, ticks: seq<Tick>)
    ensures var l := BaselinePlan(a, buyHours, sellHours, ticks); l == Book(a.socMwh, ticks, l.moves)
  {
    hide Post, BaselineDecide;
    if ticks != [] {
      var n := |ticks| - 1;
      BaselineIsBooked(a, buyHours, sellHours, ticks[..n]);
      BaselineSnoc(a, buyHours, sellHours, ticks[..n], ticks[n]);
      assert ticks[..n] + [ticks[n]] == ticks;
      assert BaselinePlan(a, buyHours, sellHours, ticks).moves[..n]
          == BaselinePlan(a, buyHours, sellHours, ticks[..n]).moves;
    }
  }

  lemma {:induction false} BaselineMovesFit(
    a: Asset, buyHours: set<int>, sellHours: set<int>, ticks: seq<Tick>, theta: real)
    requires a.ratedPowerMw >= 0.0
    requires PricedAround(buyHours, sellHours, ticks, theta)
    ensures var l := BaselinePlan(a, buyHours, sellHours, ticks);
      && MovesFit(ticks, l.moves, theta)
      && MinR(a.socMwh, 0.0) <= l.soc <= MaxR(a.socMwh, a.ratedEnergyMwh)
  {
    hide Times;
    if ticks != [] {
      var n := |ticks| - 1;
      BaselineMovesFit(a, buyHours, sellHours, ticks[..n], theta);
    }
  }

  /** No tick bought in is dearer than one sold in. */
  ghost predicate BuysBelowSells(buyHours: set<int>, sellHours: set<int>, ticks: seq<Tick>) {
    forall i, j :: 0 <= i < |ticks| && 0 <= j < |ticks|
      && ticks[i].timeOfDay in buyHours && ticks[j].timeOfDay in sellHours
      ==> ticks[i].dam <= ticks[j].dam
  }

  /** Such a day has a price between the two kinds of ticks. */
  lemma {:induction false} SeparatingPrice(buyHours: set<int>, sellHours: set<int>, ticks: seq<Tick>)
    returns (theta: real)
    requires BuysBelowSells(buyHours, sellHours, ticks)
    ensures PricedAround(buyHours, sellHours, ticks, theta)
  {
    theta := 0.0;
    if ticks != [] {
      var n := |ticks| - 1;
      theta := SeparatingPrice(buyHours, sellHours, ticks[..n]);
      assert forall i :: 0 <= i < n ==> ticks[..n][i] == ticks[i];
      if (ticks[n].timeOfDay in buyHours && ticks[n].dam > theta)
         || (ticks[n].timeOfDay in sellHours && ticks[n].dam < theta) {
        theta := ticks[n].dam;
      }
    }
  }

  /** A price that separates buying from selling exists exactly on such days. */
  lemma {:induction false} SeparableExactly(buyHours: set<int>, sellHours: set<int>, ticks: seq<Tick>)
    ensures (exists theta :: PricedAround(buyHours, sellHours, ticks, theta))
       <==> BuysBelowSells(buyHours, sellHours, ticks)
  {
    if BuysBelowSells(buyHours, sellHours, ticks) {
      var theta := SeparatingPrice(buyHours, sellHours, ticks);
    }
  }

  /** On five ticks or more with one price an hour, the third-cheapest price separates the baseline's hours. */
  lemma {:induction false} BaselineIsPricedAround(ticks: seq<Tick>)
    requires |ticks| >= 5 && HoursAgree(ticks)
    ensures PricedAround(CheapestHours(ticks), DearestHours(ticks), ticks, SortByPrice(ticks)[2].dam)
  {
    hide SortByPrice, Hours;
    var sorted := SortByPrice(ticks);
    SortMembers(ticks);
    assert sorted[2].dam <= sorted[|ticks| - 3].dam;
    assert sorted[0..3] == sorted[..3] && sorted[|ticks| - 3..|ticks|] == sorted[|ticks| - 3..];
    forall i | 0 <= i < |ticks|
      ensures ticks[i].timeOfDay in Hours(sorted[..3]) ==> ticks[i].dam <= sorted[2].dam
      ensures ticks[i].timeOfDay in Hours(sorted[|ticks| - 3..]) ==> ticks[i].dam >= sorted[2].dam
    {
      PartOfSorted(sorted, 0, 3, ticks[i].timeOfDay);
      PartOfSorted(sorted, |ticks| - 3, |ticks|, ticks[i].timeOfDay);
    }
  }

  lemma {:induction false} PartOfSorted(sorted: seq<Tick>, lo: nat, hi: nat, hour: int)
    requires SortedByPrice(sorted) && lo < hi <= |sorted|
    ensures hour in Hours(sorted[lo..hi]) ==>
      exists t :: t in sorted && t.timeOfDay == hour && sorted[lo].dam <= t.dam <= sorted[hi - 1].dam
  {
    if hour in Hours(sorted[lo..hi]) {
      var t :| t in sorted[lo..hi] && t.timeOfDay == hour;
      var k :| 0 <= k < hi - lo && sorted[lo..hi][k] == t;
      assert sorted[lo + k] == t;
    }
  }

  /**
   * Whatever price separates the baseline's buying ticks from its selling ones, it earns at
   * least that price per unit given up; and it never leaves the battery.
   */
  lemma {:induction false} BaselineTradingFloor(a: Asset, ticks: seq<Tick>, theta: real)
    requires a.ratedPowerMw >= 0.0
    requires PricedAround(CheapestHours(ticks), DearestHours(ticks), ticks, theta)
    ensures var l := BaselinePlan(a, CheapestHours(ticks), DearestHours(ticks), ticks);
      && l.trading >= Times(a.socMwh - l.soc, theta)
      && MinR(a.socMwh, 0.0) <= l.soc <= MaxR(a.socMwh, a.ratedEnergyMwh)
  {
    hide BaselinePlan, CheapestHours, DearestHours;
    BaselineFloorAt(a, CheapestHours(ticks), DearestHours(ticks), ticks, theta);
  }

  /** So on such a day of five ticks or more it earns at least the third-cheapest price per unit given up. */
  lemma {:induction false} BaselineEarnsThirdCheapest(a: Asset, ticks: seq<Tick>)
    requires a.ratedPowerMw >= 0.0 && |ticks| >= 5 && HoursAgree(ticks)
    ensures var l := BaselinePlan(a, CheapestHours(ticks), DearestHours(ticks), ticks);
      l.trading >= Times(a.socMwh - l.soc, SortByPrice(ticks)[2].dam)
  {
    hide BaselinePlan, CheapestHours, DearestHours, SortByPrice, PricedAround;
    BaselineIsPricedAround(ticks);
    BaselineTradingFloor(a, ticks, SortByPrice(ticks)[2].dam);
  }

  /** The exact condition for the baseline, over every battery and every stretch of the day. */
  lemma {:induction false} BaselineFloorExactly(buyHours: set<int>, sellHours: set<int>, ticks: seq<Tick>, theta: real)
    ensures (forall a: Asset, i, j :: a.ratedPowerMw >= 0.0 && 0 <= i <= j <= |ticks| ==>
               BaselineKeepsFloor(a, buyHours, sellHours, ticks[i..j], theta))
       <==> PricedAround(buyHours, sellHours, ticks, theta)
  {
    hide BaselinePlan;
    if PricedAround(buyHours, sellHours, ticks, theta) {
      forall a: Asset, i, j | a.ratedPowerMw >= 0.0 && 0 <= i <= j <= |ticks|
        ensures BaselineKeepsFloor(a, buyHours, sellHours, ticks[i..j], theta)
      {
        BaselineFloorAt(a, buyHours, sellHours, ticks[i..j], theta);
      }
    } else {
      var i :| 0 <= i < |ticks| && Misplaced(buyHours, sellHours, ticks[i], theta);
      assert ticks[i..i + 1] == [ticks[i]];
      var a := MisplacedBreaksBaseline(buyHours, sellHours, ticks[i], theta);
      assert !BaselineKeepsFloor(a, buyHours, sellHours, ticks[i..i + 1], theta);
    }
  }

  lemma {:induction false} MisplacedBreaksBaseline(buyHours: set<int>, sellHours: set<int>, t: Tick, theta: real)
    returns (a: Asset)
    requires Misplaced(buyHours, sellHours, t, theta)
    ensures a.ratedPowerMw >= 0.0 && !BaselineKeepsFloor(a, buyHours, sellHours, [t], theta)
  {
    hide BaselinePlan;
    var full := !(t.timeOfDay in buyHours && t.dam > theta);
    a := Asset(1.0, 1.0, if full then 1.0 else 0.0, 0.0, 0.0);
    BaselineSnoc(a, buyHours, sellHours, [], t);
    BaselineStarts(a, buyHours, sellHours);
    assert [] + [t] == [t];
    assert BaselineDecide(a, buyHours, sellHours, t, a.socMwh) == if full then Sell(1.0) else Buy(1.0);
  }

  ghost predicate BaselineKeepsFloor(a: Asset, buyHours: set<int>, sellHours: set<int>, ticks: seq<Tick>, theta: real) {
    var l := BaselinePlan(a, buyHours, sellHours, ticks); l.trading >= Times(a.socMwh - l.soc, theta)
  }

  lemma {:induction false} BaselineFloorAt(
    a: Asset, buyHours: set<int>, sellHours: set<int>, ticks: seq<Tick>, theta: real)
    requires a.ratedPowerMw >= 0.0
    requires PricedAround(buyHours, sellHours, ticks, theta)
    ensures var l := BaselinePlan(a, buyHours, sellHours, ticks);
      && l.trading >= Times(a.socMwh - l.soc, theta)
      && MinR(a.socMwh, 0.0) <= l.soc <= MaxR(a.socMwh, a.ratedEnergyMwh)
  {
    hide BaselinePlan, Book, PricedAround;
    BaselineMovesFit(a, buyHours, sellHours, ticks, theta);
    BaselineIsBooked(a, buyHours, sellHours, ticks);
    var l := BaselinePlan(a, buyHours, sellHours, ticks);
    BookKeepsFloor(a.socMwh, ticks, l.moves, theta);
    TimesSum(a.socMwh - l.soc, l.soc, theta);
  }

  lemma {:induction false} SortMembers(ticks: seq<Tick>)
    ensures forall t :: t in SortByPrice(ticks) <==> t in ticks
  {
    forall t
      ensures t in SortByPrice(ticks) <==> t in ticks
    {
      SortIsStable(ticks, t.dam);
      FilterMembers((u: Tick) => u.dam == t.dam, SortByPrice(ticks));
      FilterMembers((u: Tick) => u.dam == t.dam, ticks);
    }
  }

  /** `s` stands in one of the hours, `t` in none of them. */
  predicate Divides(ticks: seq<Tick>, hours: set<int>, s: Tick, t: Tick) {
    s in ticks && t in ticks && s.timeOfDay in hours && t.timeOfDay !in hours
  }

  /** Which hours the baseline trades in: three of each, none outside cheaper (dearer) than one inside. */
  lemma {:induction false} BaselineHoursAreExtreme(ticks: seq<Tick>)
    requires DistinctHours(ticks)
    ensures |CheapestHours(ticks)| == |DearestHours(ticks)| == Min(3, |ticks|)
    ensures forall s, t :: Divides(ticks, CheapestHours(ticks), s, t) ==> s.dam <= t.dam
    ensures forall s, t :: Divides(ticks, DearestHours(ticks), s, t) ==> s.dam >= t.dam
  {
    hide SortByPrice, Hours;
    var sorted, n := SortByPrice(ticks), |ticks|;
    SortMembers(ticks);
    SortKeepsHours(ticks);
    HoursAreCounted(sorted[..Min(3, n)]);
    HoursAreCounted(sorted[Max(0, n - 3)..]);
    assert sorted[0..Min(3, n)] == sorted[..Min(3, n)] && sorted[Max(0, n - 3)..n] == sorted[Max(0, n - 3)..];
    forall s, t | s in ticks && t in ticks
      ensures Divides(ticks, CheapestHours(ticks), s, t) ==> s.dam <= t.dam
      ensures Divides(ticks, DearestHours(ticks), s, t) ==> s.dam >= t.dam
    {
      assert s in sorted && t in sorted;
      var i :| 0 <= i < n && sorted[i] == s;
      var j :| 0 <= j < n && sorted[j] == t;
      HoursOfSlice(sorted, 0, Min(3, n), i);
      HoursOfSlice(sorted, 0, Min(3, n), j);
      HoursOfSlice(sorted, Max(0, n - 3), n, i);
      HoursOfSlice(sorted, Max(0, n - 3), n, j);
    }
  }

  /** With distinct hours, an hour is in a slice exactly if its one tick is. */
  lemma {:induction false} HoursOfSlice(s: seq<Tick>, lo: nat, hi: nat, k: nat)
    requires DistinctHours(s) && lo <= hi <= |s| && k < |s|
    ensures s[k].timeOfDay in Hours(s[lo..hi]) <==> lo <= k < hi
  {
    if lo <= k < hi {
      assert s[lo..hi][k - lo] == s[k];
    }
    if t :| t in s[lo..hi] && t.timeOfDay == s[k].timeOfDay {
      var j :| 0 <= j < hi - lo && s[lo..hi][j] == t;
      assert s[lo + j] == t;
    }
  }

  lemma {:induction false} HoursSnoc(ticks: seq<Tick>, t: Tick)
    ensures Hours(ticks + [t]) == Hours(ticks) + {t.timeOfDay}
    ensures (forall i :: 0 <= i < |ticks| ==> ticks[i].timeOfDay != t.timeOfDay) ==> t.timeOfDay !in Hours(ticks)
  {
    assert t in ticks + [t];
    assert forall u :: u in ticks ==> u in ticks + [t];
  }

  lemma {:induction false} HoursAreCounted(s: seq<Tick>)
    requires DistinctHours(s)
    ensures |Hours(s)| == |s|
  {
    hide Hours;
    if s != [] {
      var front, last := s[..|s| - 1], s[|s| - 1];
      assert forall i :: 0 <= i < |front| ==> front[i] == s[i];
      HoursAreCounted(front);
      HoursSnoc(front, last);
      assert s == front + [last];
    } else {
      NoHours();
    }
  }

  lemma {:induction false} NoHours()
    ensures Hours([]) == {}
  {
  }

  lemma {:induction false} InsertKeepsHours(s: seq<Tick>, t: Tick)
    requires SortedByPrice(s) && DistinctHours(s) && forall i :: 0 <= i < |s| ==> s[i].timeOfDay != t.timeOfDay
    ensures DistinctHours(InsertByPrice(s, t))
    ensures forall u :: u in InsertByPrice(s, t) ==> u in s || u == t
  {
    if s != [] && s[|s| - 1].dam > t.dam {
      var front, last := s[..|s| - 1], s[|s| - 1];
      InsertKeepsHours(front, t);
      var r := InsertByPrice(front, t);
      forall i | 0 <= i < |r|
        ensures r[i].timeOfDay != last.timeOfDay
      {
        assert r[i] in r;
      }
    }
  }

  lemma {:induction false} SortKeepsHours(ticks: seq<Tick>)
    requires DistinctHours(ticks)
    ensures DistinctHours(SortByPrice(ticks))
    ensures forall u :: u in SortByPrice(ticks) ==> u in ticks
  {
    if ticks != [] {
      var front, last := ticks[..|ticks| - 1], ticks[|ticks| - 1];
      SortKeepsHours(front);
      var s := SortByPrice(front);
      forall i | 0 <= i < |s|
        ensures s[i].timeOfDay != last.timeOfDay
      {
        assert s[i] in front;
      }
      InsertKeepsHours(s, last);
    }
  }

  // ---------------------------------------------------------------------------
  // Replay: what allowed actions do to the realised figures
  // ---------------------------------------------------------------------------

  datatype Realised = Realised(revenue: real, degradation: real, soc: real)

  function OrZero(v: Option<real>): real {
    match v
    case None => 0.0
    case Some(x) => x
  }

  /** `applyAction`: note the half share of the cycling cost. */
  function ApplyAction(act: Action, degradationEurPerMwh: real, r: Realised): Realised {
    var mwh, price := OrZero(act.volumeMwh), OrZero(act.price);
    match act.kind
    case Hold => r
    case Charge =>
      Realised(r.revenue - Times(mwh, price), r.degradation + Times(mwh, degradationEurPerMwh) * 0.5, r.soc + mwh)
    case Discharge =>
      Realised(r.revenue + Times(mwh, price), r.degradation + Times(mwh, degradationEurPerMwh) * 0.5, r.soc - mwh)
    case _ => r.(revenue := r.revenue + Times(OrZero(act.volumeMw), price))
  }

  /**
   * A trade pays its price and half its cycling cost and moves the charge; a bid of any kind
   * earns; a hold does nothing.
   */
  lemma {:induction false} ActionIsApplied(act: Action, deg: real, r: Realised)
    ensures var r' := ApplyAction(act, deg, r);
      && (act.kind == ActionType.Hold ==> r' == r)
      && (act.kind in {FcrBid, AfrrBidUp, AfrrBidDown} ==>
            r'.soc == r.soc && r'.degradation == r.degradation
            && r'.revenue - r.revenue == if act.volumeMw.Some? && act.price.Some? then
                 Times(act.volumeMw.value, act.price.value) else 0.0)
      && (act.kind in {Charge, Discharge} ==>
            && 2.0 * (r'.degradation - r.degradation)
               == (if act.volumeMwh.Some? then Times(act.volumeMwh.value, deg) else 0.0)
            && r'.soc - r.soc == (if act.kind == Charge then OrZero(act.volumeMwh) else -OrZero(act.volumeMwh))
            && Times(r'.soc - r.soc, OrZero(act.price)) == r.revenue - r'.revenue)
  {
  }

  function Replay(actions: seq<Action>, degradationEurPerMwh: real, soc: real): Realised {
    if actions == [] then Realised(0.0, 0.0, soc)
    else
      ApplyAction(actions[|actions| - 1], degradationEurPerMwh,
                  Replay(actions[..|actions| - 1], degradationEurPerMwh, soc))
  }

  /** `each` for every buy and sell. */
  function PerTrade(moves: seq<Move>, each: real): real {
    if moves == [] then 0.0
    else PerTrade(moves[..|moves| - 1], each) + TradeShare(moves[|moves| - 1], each)
  }

  function TradeShare(m: Move, each: real): real {
    if m.Buy? || m.Sell? then each else 0.0
  }

  /** `delta` times every absolute price a published volume is multiplied by. */
  function PerPrice(ticks: seq<Tick>, moves: seq<Move>, delta: real): real
    requires |ticks| == |moves|
  {
    if ticks == [] then 0.0
    else
      var n := |ticks| - 1;
      PerPrice(ticks[..n], moves[..n], delta) + PriceShare(ticks[n], moves[n], delta)
  }

  function PriceShare(t: Tick, m: Move, delta: real): real {
    match m
    case Rest => 0.0
    case Reserve(_) => Times(delta, AbsR(t.fcr))
    case _ => Times(delta, AbsR(t.dam))
  }

  /** How many moves carry a price. */
  function PricedCount(moves: seq<Move>): nat {
    if moves == [] then 0
    else PricedCount(moves[..|moves| - 1]) + if moves[|moves| - 1].Rest? then 0 else 1
  }

  /** The revenue drift is at most that of one move at the largest price, for every move that carries one. */
  lemma {:induction false} PerPriceCounts(ticks: seq<Tick>, moves: seq<Move>, delta: real, top: real)
    requires |ticks| == |moves| && delta >= 0.0
    requires forall i :: 0 <= i < |ticks| ==> AbsR(ticks[i].dam) <= top && AbsR(ticks[i].fcr) <= top
    ensures PerPrice(ticks, moves, delta) <= Times(PricedCount(moves) as real, Times(delta, top))
  {
    hide Times;
    if ticks == [] {
      NoTimes(Times(delta, top));
    } else {
      var n := |ticks| - 1;
      PerPriceCounts(ticks[..n], moves[..n], delta, top);
      TimesOrder(delta, AbsR(ticks[n].dam), top);
      TimesOrder(delta, AbsR(ticks[n].fcr), top);
      OneMoreTimes(PricedCount(moves[..n]), Times(delta, top));
    }
  }

  lemma {:induction false} NoTimes(x: real)
    ensures Times(0 as real, x) == 0.0
  {
  }

  lemma {:induction false} OneMoreTimes(n: nat, x: real)
    ensures Times((n + 1) as real, x) == Times(n as real, x) + x
  {
  }

  /** `act` publishes `m` with its volume off by at most `delta`. */
  ghost predicate Publishes(act: Action, t: Tick, m: Move, delta: real) {
    match m
    case Buy(v) =>
      act.kind == Charge && act.volumeMwh.Some? && act.price == Some(t.dam) && AbsR(act.volumeMwh.value - v) <= delta
    case Sell(v) =>
      act.kind == Discharge && act.volumeMwh.Some? && act.price == Some(t.dam) && AbsR(act.volumeMwh.value - v) <= delta
    case Reserve(bid) =>
      act.kind == FcrBid && act.volumeMw.Some? && act.price == Some(t.fcr) && AbsR(act.volumeMw.value - bid) <= delta
    case Rest => act.kind == ActionType.Hold
  }

  lemma {:induction false} TimesError(v: real, w: real, price: real, delta: real)
    requires AbsR(w - v) <= delta
    ensures AbsR(Times(w, price) - Times(v, price)) <= Times(delta, AbsR(price))
  {
    TimesSum(v, w - v, price);
    var q := AbsR(price);
    TimesOrder(q, w - v, delta);
    TimesOrder(q, -delta, w - v);
    assert Times(q, delta) == Times(delta, q) && Times(q, -delta) == -Times(delta, q);
    assert Times(q, w - v) == Times(w - v, price) || Times(q, w - v) == -Times(w - v, price);
  }

  lemma {:induction false} ApplyTracksPost(
    act: Action, t: Tick, m: Move, delta: real, deg: real, r: Realised, l: Ledger)
    requires Publishes(act, t, m, delta)
    ensures var r', l' := ApplyAction(act, deg, r), Post(l, t, m);
      && AbsR((r'.soc - r.soc) - (l'.soc - l.soc)) <= TradeShare(m, delta)
      && AbsR((r'.revenue - r.revenue) - (l'.trading + l'.reserve - l.trading - l.reserve)) <= PriceShare(t, m, delta)
      && AbsR((r'.degradation - r.degradation) - (Times(l'.cycled, deg) - Times(l.cycled, deg)) * 0.5)
         <= TradeShare(m, Times(delta, AbsR(deg)) * 0.5)
  {
    match m
    case Rest =>
    case Reserve(bid) => TimesError(bid, act.volumeMw.value, t.fcr, delta);
    case Buy(v) =>
      TimesError(v, act.volumeMwh.value, t.dam, delta);
      TimesError(v, act.volumeMwh.value, deg, delta);
      TimesSum(l.cycled, v, deg);
    case Sell(v) =>
      TimesError(v, act.volumeMwh.value, t.dam, delta);
      TimesError(v, act.volumeMwh.value, deg, delta);
      TimesSum(l.cycled, v, deg);
  }

  /** `actions` publishes `moves`, tick by tick, with volumes off by at most `delta`. */
  ghost predicate PublishesAll(actions: seq<Action>, ticks: seq<Tick>, moves: seq<Move>, delta: real) {
    && |ticks| == |moves| == |actions|
    && forall i :: 0 <= i < |ticks| ==> Publishes(actions[i], ticks[i], moves[i], delta)
  }

  // Replaying published actions follows the books they were published from, up to the
  // rounding of volumes: first the state of charge, then the revenue, then the cycling cost.

  lemma {:induction false} ReplayTracksSoc(
    soc: real, ticks: seq<Tick>, moves: seq<Move>, actions: seq<Action>, deg: real, delta: real)
    requires PublishesAll(actions, ticks, moves, delta)
    ensures AbsR(Replay(actions, deg, soc).soc - Book(soc, ticks, moves).soc) <= PerTrade(moves, delta)
  {
    hide Publishes, Post, ApplyAction, TradeShare, PriceShare, Times;
    if ticks != [] {
      var n := |ticks| - 1;
      ReplayTracksSoc(soc, ticks[..n], moves[..n], actions[..n], deg, delta);
      ApplyTracksPost(actions[n], ticks[n], moves[n], delta, deg,
                      Replay(actions[..n], deg, soc), Book(soc, ticks[..n], moves[..n]));
    }
  }

  lemma {:induction false} ReplayTracksRevenue(
    soc: real, ticks: seq<Tick>, moves: seq<Move>, actions: seq<Action>, deg: real, delta: real)
    requires PublishesAll(actions, ticks, moves, delta)
    ensures var l := Book(soc, ticks, moves);
      AbsR(Replay(actions, deg, soc).revenue - (l.trading + l.reserve)) <= PerPrice(ticks, moves, delta)
  {
    hide Publishes, Post, ApplyAction, TradeShare, PriceShare, Times;
    if ticks != [] {
      var n := |ticks| - 1;
      ReplayTracksRevenue(soc, ticks[..n], moves[..n], actions[..n], deg, delta);
      ApplyTracksPost(actions[n], ticks[n], moves[n], delta, deg,
                      Replay(actions[..n], deg, soc), Book(soc, ticks[..n], moves[..n]));
    }
  }

  function TradedMwh(actions: seq<Action>): real {
    if actions == [] then 0.0
    else
      var act := actions[|actions| - 1];
      TradedMwh(actions[..|actions| - 1])
      + if act.kind == Charge || act.kind == Discharge then OrZero(act.volumeMwh) else 0.0
  }

  lemma {:induction false} ReplayChargesHalfPerMwh(actions: seq<Action>, deg: real, soc: real)
    ensures Replay(actions, deg, soc).degradation == Times(TradedMwh(actions), deg) * 0.5
  {
    if actions != [] {
      var n := |actions| - 1;
      ReplayChargesHalfPerMwh(actions[..n], deg, soc);
      TimesSum(TradedMwh(actions[..n]), OrZero(actions[n].volumeMwh), deg);
    }
  }

  lemma {:induction false} TradedTracksCycled(
    soc: real, ticks: seq<Tick>, moves: seq<Move>, actions: seq<Action>, delta: real)
    requires PublishesAll(actions, ticks, moves, delta)
    ensures AbsR(TradedMwh(actions) - Book(soc, ticks, moves).cycled) <= PerTrade(moves, delta)
  {
    if ticks != [] {
      var n := |ticks| - 1;
      TradedTracksCycled(soc, ticks[..n], moves[..n], actions[..n], delta);
    }
  }

  function TradeCount(moves: seq<Move>): nat {
    if moves == [] then 0
    else TradeCount(moves[..|moves| - 1]) + if moves[|moves| - 1].Buy? || moves[|moves| - 1].Sell? then 1 else 0
  }

  lemma {:induction false} PerTradeCounts(moves: seq<Move>, each: real)
    ensures PerTrade(moves, each) == Times(TradeCount(moves) as real, each)
  {
    if moves != [] {
      var front := moves[..|moves| - 1];
      PerTradeCounts(front, each);
      TimesSum(TradeCount(front) as real, 1.0, each);
    }
  }

  lemma {:induction false} PublishPublishes(ticks: seq<Tick>, moves: seq<Move>)
    requires |ticks| == |moves|
    ensures PublishesAll(Publish(ticks, moves), ticks, moves, 0.005)
  {
    if ticks != [] {
      var n := |ticks| - 1;
      PublishPublishes(ticks[..n], moves[..n]);
      match moves[n] {
        case Buy(v) => Fixed2IsClose(v);
        case Sell(v) => Fixed2IsClose(v);
        case Reserve(bid) => Fixed2IsClose(bid);
        case Rest =>
      }
    }
  }

  /**
   * If every proposed action is allowed, the orchestrator's replay of the two-decimal volumes
   * ends within 0.005 MWh per trade of the proposer's own state of charge, and its revenue is
   * off by at most 0.005 per unit of price.
   */
  lemma {:induction false} ReplayTracksFallback(soc: real, lim: Limits, ticks: seq<Tick>, deg: real)
    ensures var l := Plan(soc, lim, ticks);
      var r := Replay(Publish(ticks, l.moves), deg, soc);
      && AbsR(r.soc - l.soc) <= PerTrade(l.moves, 0.005)
      && AbsR(r.revenue - (l.trading + l.reserve)) <= PerPrice(ticks, l.moves, 0.005)
  {
    hide Plan, Book, Publish, Replay, PerTrade, PerPrice;
    var moves := Plan(soc, lim, ticks).moves;
    PlanIsBooked(soc, lim, ticks);
    PublishPublishes(ticks, moves);
    ReplayTracksSoc(soc, ticks, moves, Publish(ticks, moves), deg, 0.005);
    ReplayTracksRevenue(soc, ticks, moves, Publish(ticks, moves), deg, 0.005);
  }

  /** The same replay charges half of what the proposer budgeted for cycling, give or take the rounding. */
  lemma {:induction false} ReplayChargesHalfTheFallback(soc: real, lim: Limits, ticks: seq<Tick>, deg: real)
    ensures var l := Plan(soc, lim, ticks);
      AbsR(Replay(Publish(ticks, l.moves), deg, soc).degradation - Times(l.cycled, deg) * 0.5)
        <= Times(PerTrade(l.moves, 0.005), AbsR(deg)) * 0.5
  {
    hide Plan, Book, Publish, Replay, PerTrade, TradedMwh;
    var l := Plan(soc, lim, ticks);
    var actions := Publish(ticks, l.moves);
    assert AbsR(TradedMwh(actions) - l.cycled) <= PerTrade(l.moves, 0.005) by {
      PlanIsBooked(soc, lim, ticks);
      PublishPublishes(ticks, l.moves);
      TradedTracksCycled(soc, ticks, l.moves, actions, 0.005);
    }
    ReplayChargesHalfPerMwh(actions, deg, soc);
    TimesError(l.cycled, TradedMwh(actions), deg, PerTrade(l.moves, 0.005));
  }

  // ---------------------------------------------------------------------------
  // Replaying a part of the actions
  // ---------------------------------------------------------------------------

  /** Energy an action puts into the battery. */
  function Delta(act: Action): real {
    match act.kind
    case Charge => OrZero(act.volumeMwh)
    case Discharge => -OrZero(act.volumeMwh)
    case _ => 0.0
  }

  function NetEnergy(actions: seq<Action>): real {
    if actions == [] then 0.0 else NetEnergy(actions[..|actions| - 1]) + Delta(actions[|actions| - 1])
  }

  lemma {:induction false} ReplayAddsNetEnergy(actions: seq<Action>, deg: real, soc: real)
    ensures Replay(actions, deg, soc).soc == soc + NetEnergy(actions)
  {
    hide Times;
    if actions != [] {
      ReplayAddsNetEnergy(actions[..|actions| - 1], deg, soc);
    }
  }

  /** A published plan, cut short, is the published plan of the day cut short. */
  lemma {:induction false} PlanPrefix(soc: real, lim: Limits, ticks: seq<Tick>, n: nat)
    requires n <= |ticks|
    ensures Publish(ticks[..n], Plan(soc, lim, ticks[..n]).moves) == Publish(ticks, Plan(soc, lim, ticks).moves)[..n]
  {
    hide Decide, Post, Propose;
    if n < |ticks| {
      var front := ticks[..|ticks| - 1];
      PlanPrefix(soc, lim, front, n);
      PlanSnoc(soc, lim, front, ticks[|ticks| - 1]);
      assert front + [ticks[|ticks| - 1]] == ticks && front[..n] == ticks[..n];
    } else {
      assert ticks[..n] == ticks;
    }
  }
}
