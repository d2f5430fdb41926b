/**
 * The decision loop: each proposed action is put through the gate, an allowed one is applied
 * and charged to the window, and every one is deposited in the audit chain.
 */
module DecisionLoop {
  import opened Prelude
  import Dispatch
  import CanonicalJson
  import HashChain
  import M = Mi9Gate

  /** A proposed action, with the clock readings and identifiers drawn while it is processed. */
  datatype Item = Item(
    action: Dispatch.Action, evalAt: int, recordAt: int, decisionId: string, recordId: string, timestamp: string)

  datatype Session = Session(
    verdicts: seq<M.Verdict>, counters: Tally,
    realised: Dispatch.Realised, verifiedGainEur: real, osaasFeeEur: real, headChainHash: string)

  /** What a session is run under. The last three render the parts of an audit payload not modelled here. */
  datatype Setup = Setup(
    policy: M.Policy, domain: string, degradationEurPerMwh: real, hash: HashChain.Hash,
    mi9Rest: (Item, M.Verdict) -> CanonicalJson.Members,
    outcomeRest: (Item, M.Verdict) -> CanonicalJson.Members,
    payloadRest: (Item, M.Verdict) -> CanonicalJson.Members)

  // ---------------------------------------------------------------------------
  // Payloads
  // ---------------------------------------------------------------------------

  function VerdictText(v: M.Verdict): string {
    match v
    case Allow => "allow"
    case AllowWithCosign => "allow-with-cosign"
    case Escalate => "escalate"
    case Block => "block"
  }

  function OutcomeText(v: M.Verdict): string {
    match v
    case Allow => "executed"
    case AllowWithCosign => "held-for-cosign"
    case Escalate => "escalated"
    case Block => "blocked"
  }

  /** The object deposited for one action: the gate's result, the outcome it led to, and the rest. */
  function Payload(s: Setup, it: Item, v: M.Verdict): CanonicalJson.Value {
    CanonicalJson.Obj(
      CanonicalJson.MCons("mi9Result", CanonicalJson.Obj(
        CanonicalJson.MCons("verdict", CanonicalJson.Str(VerdictText(v)), s.mi9Rest(it, v))),
      CanonicalJson.MCons("outcome", CanonicalJson.Obj(
        CanonicalJson.MCons("action", CanonicalJson.Str(OutcomeText(v)), s.outcomeRest(it, v))),
      s.payloadRest(it, v))))
  }

  // ---------------------------------------------------------------------------
  // Contexts
  // ---------------------------------------------------------------------------

  function ImpactOf(a: Dispatch.Action): (string, real) {
    match a.kind
    case Hold => ("MWh", 0.0)
    case Charge => ("EUR", Fixed2(Times(Dispatch.OrZero(a.volumeMwh), Dispatch.OrZero(a.price))))
    case Discharge => ("EUR", Fixed2(Times(Dispatch.OrZero(a.volumeMwh), Dispatch.OrZero(a.price))))
    case _ => ("MW", Dispatch.OrZero(a.volumeMw))
  }

  function ContextOf(s: Setup, it: Item): M.Context {
    var impact := ImpactOf(it.action);
    M.Context(it.decisionId, s.domain, it.action.confidence,
              it.action.kind != Dispatch.Discharge || Dispatch.OrZero(it.action.volumeMwh) <= 2.0,
              impact.0, impact.1, "eu", "RO", 3, 30_000, true, None, None, true)
  }

  /** What a context tells the gates of the action: its impact, and whether it could be taken back. */
  ghost predicate Describes(ctx: M.Context, a: Dispatch.Action) {
    && ctx.confidence == a.confidence
    && (!ctx.reversible <==> a.kind == Dispatch.Discharge && a.volumeMwh.Some? && a.volumeMwh.value > 2.0)
    && match a.kind
       case Hold => ctx.impactUnit == "MWh" && ctx.impactValue == 0.0
       case FcrBid => IsBid(ctx, a.volumeMw)
       case AfrrBidUp => IsBid(ctx, a.volumeMw)
       case AfrrBidDown => IsBid(ctx, a.volumeMw)
       case _ => IsTrade(ctx, a)
  }

  predicate IsBid(ctx: M.Context, volumeMw: Option<real>) {
    ctx.impactUnit == "MW" && (if volumeMw.Some? then volumeMw == Some(ctx.impactValue) else ctx.impactValue == 0.0)
  }

  /** A trade without volume or price is worth nothing. */
  predicate IsTrade(ctx: M.Context, a: Dispatch.Action) {
    && ctx.impactUnit == "EUR"
    && IsCents(ctx.impactValue, if a.volumeMwh.Some? && a.price.Some?
                                then Times(a.volumeMwh.value, a.price.value) else 0.0)
  }

  /** Every action is judged as a Romanian one on fresh, corroborated data lying in the EU, with a fallback at hand. */
  lemma {:induction false} ContextIsExact(s: Setup, it: Item)
    ensures var ctx := ContextOf(s, it);
      && Describes(ctx, it.action)
      && ctx.decisionId == it.decisionId && ctx.domain == s.domain
      && ctx.dataResidency == "eu" && ctx.subjectJurisdiction == "RO"
      && ctx.sourceCount == 3 && ctx.lastRefreshMs == 30_000 && ctx.consensusReached && ctx.fallbackAvailable
      && ctx.taskClass == None && ctx.priorApproval == None
  {
    hide Fixed2, IsCents;
    var a := it.action;
    Fixed2IsCents(Times(Dispatch.OrZero(a.volumeMwh), Dispatch.OrZero(a.price)));
    assert Times(0.0, Dispatch.OrZero(a.price)) == 0.0 && Times(Dispatch.OrZero(a.volumeMwh), 0.0) == 0.0;
  }

  /** An action of this worth: a trade in EUR, a bid in MW. */
  ghost predicate IsWorth(a: Dispatch.Action, unit: string, value: real) {
    match a.kind
    case Hold => false
    case Charge => TradeIsWorth(a, unit, value)
    case Discharge => TradeIsWorth(a, unit, value)
    case _ => unit == "MW" && a.volumeMw.Some? && (a.volumeMw.value >= value || -a.volumeMw.value >= value)
  }

  /** To the cent the trade is impacted with. */
  predicate TradeIsWorth(a: Dispatch.Action, unit: string, value: real) {
    && unit == "EUR" && a.volumeMwh.Some? && a.price.Some?
    && AbsR(Times(a.volumeMwh.value, a.price.value)) >= value + 0.005
  }

  /** Reasons an action never runs on its own, whatever else was decided: its domain, its kind, its size. */
  ghost predicate MustBeHeld(s: Setup, a: Dispatch.Action) {
    || M.TierAmong(s.policy, s.domain, s.policy.cosignAtTiers)
    || M.TierAmong(s.policy, s.domain, s.policy.escalateAtTiers)
    || M.HasTier(s.policy, s.domain, M.Unacceptable)
    || (s.policy.irreversibleVerdict != M.Allow
        && a.kind == Dispatch.Discharge && a.volumeMwh.Some? && a.volumeMwh.value > 2.0)
    || (exists t :: t in s.policy.cosignThresholds && IsWorth(a, t.unit, t.value))
    || a.confidence < s.policy.minimumAutonomous
  }

  lemma {:induction false} WorthIsImpact(ctx: M.Context, a: Dispatch.Action, t: M.Threshold, ts: seq<M.Threshold>)
    requires Describes(ctx, a) && t in ts && IsWorth(a, t.unit, t.value)
    ensures M.ImpactAmong(ctx, ts)
  {
    assert t.unit == ctx.impactUnit && (ctx.impactValue >= t.value || -ctx.impactValue >= t.value);
  }

  lemma {:induction false} HeldIsNotAllowed(s: Setup, it: Item, now: int, auto: nat, cosign: nat)
    requires MustBeHeld(s, it.action)
    ensures M.Overall(ContextOf(s, it), s.policy, now, auto, cosign) != M.Allow
  {
    hide M.Overall, ContextOf, M.TierAmong, M.HasTier, M.ImpactAmong, M.Budgeted, M.ResidencyRefused, IsWorth, IsTrade;
    var ctx := ContextOf(s, it);
    ContextIsExact(s, it);
    M.VerdictIsExact(ctx, s.policy, now, auto, cosign);
    if t :| t in s.policy.cosignThresholds && IsWorth(it.action, t.unit, t.value) {
      WorthIsImpact(ctx, it.action, t, s.policy.cosignThresholds);
    }
  }

  // ---------------------------------------------------------------------------
  // Gain and fee
  // ---------------------------------------------------------------------------

  const FEE_SHARE := 0.15
  const FEE_CAP_EUR := 1000.0

  /** No fee without a gain, never more than the share of the gain or the cap. */
  function OsaasFee(gain: real): (fee: real)
    ensures 0.0 <= fee <= 1000.0
    ensures gain <= 0.0 <==> fee == 0.0
    ensures gain > 0.0 ==> fee <= gain * 0.15 && (fee == gain * 0.15 || fee == 1000.0)
  {
    if gain <= 0.0 then 0.0 else MinR(gain * FEE_SHARE, FEE_CAP_EUR)
  }

  /** Without a gain no fee is left after rounding, and with one it is the share or the cap to the cent. */
  lemma {:induction false} NoGainNoFee(net: real, baselineNetEur: real)
    requires net <= baselineNetEur
    ensures Fixed2(OsaasFee(Fixed2(net - baselineNetEur))) == 0.0
  {
    assert Fixed2(net - baselineNetEur) <= 0.0;
    assert Fixed2(0.0) == 0.0;
  }

  // ---------------------------------------------------------------------------
  // What a session comes to
  // ---------------------------------------------------------------------------

  /** The gate's window after these items, starting from `w`. */
  function LoopWindow(s: Setup, w: seq<M.Entry>, items: seq<Item>): seq<M.Entry> {
    if items == [] then w
    else
      var n := |items| - 1;
      var w', ctx := LoopWindow(s, w, items[..n]), ContextOf(s, items[n]);
      var looked := M.WindowAfter(w', ctx, items[n].evalAt);
      if M.VerdictOn(w', ctx, s.policy, items[n].evalAt) == M.Allow
      then M.Recorded(looked, M.Allow, ctx.taskClass, items[n].recordAt)
      else looked
  }

  function VerdictAt(s: Setup, w: seq<M.Entry>, items: seq<Item>, i: nat): M.Verdict
    requires i < |items|
  {
    M.VerdictOn(LoopWindow(s, w, items[..i]), ContextOf(s, items[i]), s.policy, items[i].evalAt)
  }

  function AllowedActions(s: Setup, w: seq<M.Entry>, items: seq<Item>): seq<Dispatch.Action> {
    if items == [] then []
    else
      var n := |items| - 1;
      AllowedActions(s, w, items[..n]) + if VerdictAt(s, w, items, n) == M.Allow then [items[n].action] else []
  }

  function CountVerdict(vs: seq<M.Verdict>, v: M.Verdict): nat {
    if vs == [] then 0 else CountVerdict(vs[..|vs| - 1], v) + if vs[|vs| - 1] == v then 1 else 0
  }

  datatype Tally = Tally(allowed: nat, cosign: nat, escalated: nat, blocked: nat)

  /** The code's if-chain over its four counters. */
  function Tallied(t: Tally, v: M.Verdict): Tally {
    match v
    case Allow => t.(allowed := t.allowed + 1)
    case AllowWithCosign => t.(cosign := t.cosign + 1)
    case Escalate => t.(escalated := t.escalated + 1)
    case Block => t.(blocked := t.blocked + 1)
  }

  ghost predicate Counted(vs: seq<M.Verdict>, t: Tally) {
    && t.allowed == CountVerdict(vs, M.Allow) && t.cosign == CountVerdict(vs, M.AllowWithCosign)
    && t.escalated == CountVerdict(vs, M.Escalate) && t.blocked == CountVerdict(vs, M.Block)
  }

  lemma {:induction false} CountSnoc(vs: seq<M.Verdict>, v: M.Verdict, w: M.Verdict)
    ensures CountVerdict(vs + [v], w) == CountVerdict(vs, w) + if v == w then 1 else 0
  {
    assert (vs + [v])[..|vs|] == vs;
  }

  lemma {:induction false} CountedSnoc(vs: seq<M.Verdict>, v: M.Verdict, t: Tally)
    requires Counted(vs, t)
    ensures Counted(vs + [v], Tallied(t, v))
  {
    hide CountVerdict;
    CountSnoc(vs, v, M.Allow);
    CountSnoc(vs, v, M.AllowWithCosign);
    CountSnoc(vs, v, M.Escalate);
    CountSnoc(vs, v, M.Block);
  }

  function EntryOf(s: Setup, it: Item, v: M.Verdict): HashChain.Entry {
    HashChain.Entry(Payload(s, it, v), it.decisionId, s.domain, it.timestamp, it.recordId)
  }

  /** The chain after depositing the first `n` verdicts, one record each. */
  function Deposited(
    s: Setup, rows: seq<HashChain.Row>, lastSeq: int, items: seq<Item>, vs: seq<M.Verdict>): seq<HashChain.Row>
    requires |vs| <= |items|
  {
    if vs == [] then rows
    else
      var n := |vs| - 1;
      var before := Deposited(s, rows, lastSeq, items, vs[..n]);
      before + [HashChain.NewRow(s.hash, HashChain.Head(before), lastSeq + n + 1, EntryOf(s, items[n], vs[n]))]
  }

  predicate IsTaken(rows: seq<HashChain.Row>, recordId: string) {
    exists i :: 0 <= i < |rows| && rows[i].recordId == recordId
  }

  ghost predicate HasVerdicts(s: Setup, w: seq<M.Entry>, items: seq<Item>, vs: seq<M.Verdict>) {
    |vs| <= |items| && forall i :: 0 <= i < |vs| ==> vs[i] == VerdictAt(s, w, items, i)
  }

  // ---------------------------------------------------------------------------
  // The loop
  // ---------------------------------------------------------------------------

  /** Evaluate one action; charge it to the window and apply it if it is allowed. */
  method Act(s: Setup, gate: M.Gate, it: Item, before: Dispatch.Realised)
    returns (v: M.Verdict, after: Dispatch.Realised)
    modifies gate
    ensures var w, ctx := old(gate.decisionsThisHour), ContextOf(s, it);
      && v == M.VerdictOn(w, ctx, s.policy, it.evalAt)
      && var looked := M.WindowAfter(w, ctx, it.evalAt);
      if v == M.Allow then
        && after == Dispatch.ApplyAction(it.action, s.degradationEurPerMwh, before)
        && gate.decisionsThisHour == M.Recorded(looked, M.Allow, ctx.taskClass, it.recordAt)
      else after == before && gate.decisionsThisHour == looked
  {
    hide M.VerdictOn, M.Findings, Dispatch.ApplyAction;
    var ctx := ContextOf(s, it);
    var r := gate.Evaluate(ctx, s.policy, it.evalAt);
    v, after := r.verdict, before;
    if v == M.Allow {
      after := Dispatch.ApplyAction(it.action, s.degradationEurPerMwh, before);
      gate.RecordExecution(v, ctx.taskClass, it.recordAt);
    }
  }

  /** Where the loop stands after `|vs|` items: the verdicts, the realised figures and the window. */
  ghost predicate Along(s: Setup, w: seq<M.Entry>, items: seq<Item>, soc: real,
                        vs: seq<M.Verdict>, realised: Dispatch.Realised, window: seq<M.Entry>) {
    && HasVerdicts(s, w, items, vs)
    && realised == Dispatch.Replay(AllowedActions(s, w, items[..|vs|]), s.degradationEurPerMwh, soc)
    && window == LoopWindow(s, w, items[..|vs|])
  }

  lemma {:induction false} AlongStep(s: Setup, w: seq<M.Entry>, items: seq<Item>, soc: real, vs: seq<M.Verdict>,
                                     realised: Dispatch.Realised, window: seq<M.Entry>, v: M.Verdict)
    requires |vs| < |items| && Along(s, w, items, soc, vs, realised, window)
    requires v == M.VerdictOn(window, ContextOf(s, items[|vs|]), s.policy, items[|vs|].evalAt)
    ensures var it, ctx := items[|vs|], ContextOf(s, items[|vs|]);
      var looked := M.WindowAfter(window, ctx, it.evalAt);
      Along(s, w, items, soc, vs + [v],
            if v == M.Allow then Dispatch.ApplyAction(it.action, s.degradationEurPerMwh, realised) else realised,
            if v == M.Allow then M.Recorded(looked, M.Allow, ctx.taskClass, it.recordAt) else looked)
  {
    hide M.VerdictOn, M.WindowAfter, M.Recorded, Dispatch.ApplyAction, Dispatch.Replay, AllowedActions, LoopWindow;
    LoopStep(s, w, items, |vs|, v);
    ReplayStep(s, w, items, |vs|, soc);
  }

  /** A failure names the item whose record id was taken: it has been acted on, but not deposited. */
  method RunDecisionLoop(s: Setup, gate: M.Gate, chain: HashChain.AuditChain, items: seq<Item>, soc: real,
                         baselineNetEur: real)
    returns (r: Result<Session, nat>)
    modifies gate, chain
    ensures r.Success? ==>
      && |r.value.verdicts| == |items|
      && Along(s, old(gate.decisionsThisHour), items, soc, r.value.verdicts, r.value.realised, gate.decisionsThisHour)
      && Counted(r.value.verdicts, r.value.counters)
      && var net := r.value.realised.revenue - r.value.realised.degradation;
      && IsCents(r.value.verifiedGainEur, net - baselineNetEur)
      && IsCents(r.value.osaasFeeEur, OsaasFee(r.value.verifiedGainEur))
      && (net <= baselineNetEur ==> r.value.osaasFeeEur == 0.0)
      && r.value.headChainHash == (if items == [] then HashChain.GENESIS else HashChain.Head(chain.rows))
      && chain.rows == Deposited(s, old(chain.rows), old(chain.lastSeq), items, r.value.verdicts)
    ensures r.Success? && M.Allow !in r.value.verdicts ==>
      r.value.realised == Dispatch.Realised(0.0, 0.0, soc) && IsCents(r.value.verifiedGainEur, -baselineNetEur)
    ensures r.Failure? ==>
      && r.error < |items| && IsTaken(chain.rows, items[r.error].recordId)
      && |chain.rows| == |old(chain.rows)| + r.error
      && gate.decisionsThisHour == LoopWindow(s, old(gate.decisionsThisHour), items[..r.error + 1])
  {
    hide Counted, Along, Deposited, LoopWindow, Fixed2, IsCents, OsaasFee;
    ghost var w, rows, lastSeq := gate.decisionsThisHour, chain.rows, chain.lastSeq;
    var counters := Tally(0, 0, 0, 0);
    var realised := Dispatch.Realised(0.0, 0.0, soc);
    var head: string := HashChain.GENESIS;
    var verdicts: seq<M.Verdict> := [];
    LoopStarts(s, w, items, soc, rows, lastSeq);
    for i := 0 to |items|
      invariant |verdicts| == i && Counted(verdicts, counters)
      invariant Along(s, w, items, soc, verdicts, realised, gate.decisionsThisHour)
      invariant chain.rows == Deposited(s, rows, lastSeq, items, verdicts)
      invariant chain.lastSeq == lastSeq + i && |chain.rows| == |rows| + i
      invariant head == if i == 0 then HashChain.GENESIS else HashChain.Head(chain.rows)
    {
      var row;
      verdicts, realised, counters, row := ProcessItem(
        s, gate, chain, items, soc, verdicts, realised, counters, w, rows, lastSeq);
      if row.None? {
        WindowAlong(s, w, items, soc, verdicts, realised, gate.decisionsThisHour);
        return Failure(i);
      }
      head := row.value.chainHash;
    }
    var realisedNet := realised.revenue - realised.degradation;
    var gain := Fixed2(realisedNet - baselineNetEur);
    r := Success(Session(verdicts, counters, realised, gain, Fixed2(OsaasFee(gain)), head));
    Fixed2IsCents(realisedNet - baselineNetEur);
    Fixed2IsCents(OsaasFee(gain));
    if realisedNet <= baselineNetEur {
      NoGainNoFee(realisedNet, baselineNetEur);
    }
    if M.Allow !in verdicts {
      NothingAllowedNothingRealised(s, w, items, soc, verdicts, realised, gate.decisionsThisHour);
    }
  }

  lemma {:induction false} NoneAllowed(s: Setup, w: seq<M.Entry>, items: seq<Item>)
    requires forall i :: 0 <= i < |items| ==> VerdictAt(s, w, items, i) != M.Allow
    ensures AllowedActions(s, w, items) == []
  {
    hide M.VerdictOn;
    if items != [] {
      var n := |items| - 1;
      forall i | 0 <= i < n
        ensures VerdictAt(s, w, items[..n], i) != M.Allow
      {
        assert items[..n][..i] == items[..i];
        assert VerdictAt(s, w, items, i) != M.Allow;
      }
      assert VerdictAt(s, w, items, n) != M.Allow;
      NoneAllowed(s, w, items[..n]);
    }
  }

  lemma {:induction false} NothingAllowedNothingRealised(
    s: Setup, w: seq<M.Entry>, items: seq<Item>, soc: real, vs: seq<M.Verdict>,
    realised: Dispatch.Realised, window: seq<M.Entry>)
    requires |vs| == |items| && Along(s, w, items, soc, vs, realised, window) && M.Allow !in vs
    ensures realised == Dispatch.Realised(0.0, 0.0, soc)
  {
    hide VerdictAt, LoopWindow;
    assert forall i :: 0 <= i < |vs| ==> vs[i] in vs;
    NoneAllowed(s, w, items);
    assert items[..|items|] == items;
  }

  /**
   * A session whose every action must be held, because of its domain's tier or action by action,
   * executes none of them.
   */
  lemma {:induction false} HeldActionsAreNotExecuted(s: Setup, w: seq<M.Entry>, items: seq<Item>)
    requires forall i :: 0 <= i < |items| ==> MustBeHeld(s, items[i].action)
    ensures AllowedActions(s, w, items) == []
    ensures forall i :: 0 <= i < |items| ==> VerdictAt(s, w, items, i) != M.Allow
  {
    hide MustBeHeld, AllowedActions, LoopWindow, ContextOf, M.Overall, M.WindowAfter;
    forall i | 0 <= i < |items|
      ensures VerdictAt(s, w, items, i) != M.Allow
    {
      var window := M.WindowAfter(LoopWindow(s, w, items[..i]), ContextOf(s, items[i]), items[i].evalAt);
      HeldIsNotAllowed(s, items[i], items[i].evalAt, M.CountOf(window, M.Allow), M.CountOf(window, M.AllowWithCosign));
    }
    NoneAllowed(s, w, items);
  }

  /** The loop body: act on the next item, count its verdict and deposit it; None if its record id is taken. */
  method ProcessItem(
    s: Setup, gate: M.Gate, chain: HashChain.AuditChain, items: seq<Item>, soc: real,
    verdicts: seq<M.Verdict>, realised: Dispatch.Realised, counters: Tally,
    ghost w: seq<M.Entry>, ghost rows: seq<HashChain.Row>, ghost lastSeq: int)
    returns (verdicts': seq<M.Verdict>, realised': Dispatch.Realised, counters': Tally, row: Option<HashChain.Row>)
    requires |verdicts| < |items| && Counted(verdicts, counters)
    requires Along(s, w, items, soc, verdicts, realised, gate.decisionsThisHour)
    requires chain.rows == Deposited(s, rows, lastSeq, items, verdicts) && chain.lastSeq == lastSeq + |verdicts|
    modifies gate, chain
    ensures |verdicts'| == |verdicts| + 1 && Counted(verdicts', counters')
    ensures Along(s, w, items, soc, verdicts', realised', gate.decisionsThisHour)
    ensures row.None? ==> chain.rows == old(chain.rows) && IsTaken(chain.rows, items[|verdicts|].recordId)
    ensures row.Some? ==>
      && chain.rows == Deposited(s, rows, lastSeq, items, verdicts') && chain.lastSeq == lastSeq + |verdicts'|
      && |chain.rows| == |old(chain.rows)| + 1 && row.value.chainHash == HashChain.Head(chain.rows)
  {
    hide M.VerdictOn, M.WindowAfter, M.Recorded, Dispatch.ApplyAction, HashChain.NewRow;
    hide Counted, Along, Deposited, ContextOf, Tallied, Payload;
    var it := items[|verdicts|];
    var v;
    v, realised' := Act(s, gate, it, realised);
    AlongStep(s, w, items, soc, verdicts, realised, old(gate.decisionsThisHour), v);
    DepositStep(s, rows, lastSeq, items, verdicts, v);
    CountedSnoc(verdicts, v, counters);
    verdicts', counters' := verdicts + [v], Tallied(counters, v);
    row := chain.Append(s.hash, EntryOf(s, it, v));
    if row.Some? {
      HeadIsLast(chain.rows, row.value);
    }
  }

  lemma {:induction false} HeadIsLast(rows: seq<HashChain.Row>, row: HashChain.Row)
    requires rows != [] && rows[|rows| - 1] == row
    ensures HashChain.Head(rows) == row.chainHash
  {
  }

  lemma {:induction false} LoopStarts(s: Setup, w: seq<M.Entry>, items: seq<Item>, soc: real,
                                      rows: seq<HashChain.Row>, lastSeq: int)
    ensures Along(s, w, items, soc, [], Dispatch.Realised(0.0, 0.0, soc), w)
    ensures Counted([], Tally(0, 0, 0, 0))
    ensures Deposited(s, rows, lastSeq, items, []) == rows
  {
  }

  lemma {:induction false} WindowAlong(s: Setup, w: seq<M.Entry>, items: seq<Item>, soc: real,
                                       vs: seq<M.Verdict>, realised: Dispatch.Realised, window: seq<M.Entry>)
    requires Along(s, w, items, soc, vs, realised, window)
    ensures |vs| <= |items| && window == LoopWindow(s, w, items[..|vs|])
  {
  }

  lemma {:induction false} DepositStep(
    s: Setup, rows: seq<HashChain.Row>, lastSeq: int, items: seq<Item>, vs: seq<M.Verdict>, v: M.Verdict)
    requires |vs| < |items|
    ensures var before := Deposited(s, rows, lastSeq, items, vs);
      Deposited(s, rows, lastSeq, items, vs + [v])
      == before + [HashChain.NewRow(s.hash, HashChain.Head(before), lastSeq + |vs| + 1, EntryOf(s, items[|vs|], v))]
  {
    hide HashChain.NewRow, HashChain.Head, EntryOf;
    assert (vs + [v])[..|vs|] == vs;
  }

  lemma {:induction false} LoopStep(s: Setup, w: seq<M.Entry>, items: seq<Item>, i: nat, v: M.Verdict)
    requires i < |items| && v == VerdictAt(s, w, items, i)
    ensures var w', ctx := LoopWindow(s, w, items[..i]), ContextOf(s, items[i]);
      var looked := M.WindowAfter(w', ctx, items[i].evalAt);
      LoopWindow(s, w, items[..i + 1])
        == if v == M.Allow then M.Recorded(looked, M.Allow, ctx.taskClass, items[i].recordAt) else looked
  {
    hide M.VerdictOn, M.WindowAfter, M.Recorded;
    assert items[..i + 1][..i] == items[..i];
  }

  lemma {:induction false} ReplayStep(s: Setup, w: seq<M.Entry>, items: seq<Item>, i: nat, soc: real)
    requires i < |items|
    ensures var deg, before := s.degradationEurPerMwh, AllowedActions(s, w, items[..i]);
      Dispatch.Replay(AllowedActions(s, w, items[..i + 1]), deg, soc)
      == if VerdictAt(s, w, items, i) == M.Allow
         then Dispatch.ApplyAction(items[i].action, deg, Dispatch.Replay(before, deg, soc))
         else Dispatch.Replay(before, deg, soc)
  {
    hide M.VerdictOn, M.WindowAfter, M.Recorded, Dispatch.ApplyAction;
    assert items[..i + 1][..i] == items[..i];
    assert VerdictAt(s, w, items[..i + 1], i) == VerdictAt(s, w, items, i);
    var before := AllowedActions(s, w, items[..i]);
    assert (before + [items[i].action])[..|before|] == before;
    assert before + [] == before;
  }

  // ---------------------------------------------------------------------------
  // Every action is counted once and audited once
  // ---------------------------------------------------------------------------

  lemma {:induction false} CountersAddUp(vs: seq<M.Verdict>, t: Tally)
    requires Counted(vs, t)
    ensures t.allowed + t.cosign + t.escalated + t.blocked == |vs|
  {
    if vs != [] {
      var front := vs[..|vs| - 1];
      CountersAddUp(front, Tally(CountVerdict(front, M.Allow), CountVerdict(front, M.AllowWithCosign),
                                 CountVerdict(front, M.Escalate), CountVerdict(front, M.Block)));
    }
  }

  /** The row holds the item's payload under the item's ids and time, the session's domain, and this number. */
  predicate IsRecordOf(row: HashChain.Row, s: Setup, seqNo: int, it: Item, v: M.Verdict) {
    && row.payloadJson == CanonicalJson.CanonicalStringify(CanonicalJson.Audit, Payload(s, it, v))
    && row.seqNo == seqNo && row.recordId == it.recordId && row.decisionId == it.decisionId
    && row.decisionType == s.domain && row.timestamp == it.timestamp
  }

  /**
   * A session extends the chain by exactly one record per action, in order and whatever the
   * verdict, each holding that action's payload, ids, domain and time under the next number;
   * and a chain that verified still does.
   */
  lemma {:induction false} EveryVerdictIsAudited(
    s: Setup, rows: seq<HashChain.Row>, lastSeq: int, items: seq<Item>, vs: seq<M.Verdict>)
    requires |vs| <= |items|
    ensures var all := Deposited(s, rows, lastSeq, items, vs);
      && rows <= all && |all| == |rows| + |vs|
      && (forall i :: 0 <= i < |vs| ==>
            IsRecordOf(all[|rows| + i], s, lastSeq + i + 1, items[i], vs[i]))
      && (HashChain.Verifies(s.hash, rows) ==> HashChain.Verifies(s.hash, all))
  {
    hide HashChain.Verifies, CanonicalJson.CanonicalStringify, Payload;
    if vs != [] {
      var n := |vs| - 1;
      EveryVerdictIsAudited(s, rows, lastSeq, items, vs[..n]);
      var before := Deposited(s, rows, lastSeq, items, vs[..n]);
      var row := HashChain.NewRow(s.hash, HashChain.Head(before), lastSeq + n + 1, EntryOf(s, items[n], vs[n]));
      HashChain.VerifiesSnoc(s.hash, before, row);
    }
  }

  /** The two members that say what was decided and what was done about it. */
  ghost predicate States(read: CanonicalJson.Value, v: M.Verdict) {
    var verdict := CanonicalJson.TextAt(read, "mi9Result", "verdict");
    var outcome := CanonicalJson.TextAt(read, "outcome", "action");
    match v
    case Allow => verdict == Some("allow") && outcome == Some("executed")
    case AllowWithCosign => verdict == Some("allow-with-cosign") && outcome == Some("held-for-cosign")
    case Escalate => verdict == Some("escalate") && outcome == Some("escalated")
    case Block => verdict == Some("block") && outcome == Some("blocked")
  }

  /** Reading a payload's canonical text back gives the verdict and the outcome it was written with. */
  lemma {:induction false} PayloadStatesVerdict(num: CanonicalJson.Numbers, s: Setup, it: Item, v: M.Verdict)
    requires CanonicalJson.WellFormed(num, Payload(s, it, v))
    ensures var text := CanonicalJson.CanonicalStringify(CanonicalJson.Audit, Payload(s, it, v));
      var read := CanonicalJson.Parse(num, text);
      read.Some? && States(read.value, v)
  {
    hide CanonicalJson.CanonicalStringify, CanonicalJson.Parse, CanonicalJson.WellFormed;
    var p := Payload(s, it, v);
    assert |"mi9Result"| != |"outcome"|;
    assert CanonicalJson.Look(p.members, "outcome") == Some(p.members.rest.value);
    CanonicalJson.TextSurvives(num, Payload(s, it, v), "mi9Result", "verdict");
    CanonicalJson.TextSurvives(num, Payload(s, it, v), "outcome", "action");
  }

  /**
   * Every record states its verdict: read back from the chain, the record of action `i` shows the
   * verdict it was given and the outcome that follows from it.
   */
  lemma {:induction false} RecordStatesVerdict(
    num: CanonicalJson.Numbers, s: Setup, rows: seq<HashChain.Row>, lastSeq: int,
    items: seq<Item>, vs: seq<M.Verdict>, i: nat)
    requires i < |vs| <= |items| && CanonicalJson.WellFormed(num, Payload(s, items[i], vs[i]))
    ensures |Deposited(s, rows, lastSeq, items, vs)| == |rows| + |vs|
    ensures var read := CanonicalJson.Parse(num, Deposited(s, rows, lastSeq, items, vs)[|rows| + i].payloadJson);
      read.Some? && States(read.value, vs[i])
  {
    hide CanonicalJson.CanonicalStringify, CanonicalJson.Parse, CanonicalJson.WellFormed, CanonicalJson.TextAt;
    hide Deposited, Payload, States;
    EveryVerdictIsAudited(s, rows, lastSeq, items, vs);
    PayloadStatesVerdict(num, s, items[i], vs[i]);
  }

  // ---------------------------------------------------------------------------
  // A session under the hourly limit
  // ---------------------------------------------------------------------------

  function Events(s: Setup, items: seq<Item>): seq<M.Event> {
    seq(|items|, i requires 0 <= i < |items| => M.Execute(items[i].evalAt, items[i].recordAt, ContextOf(s, items[i])))
  }

  /** Actions allowed and recorded in the closed hour that starts at `from`. */
  function AllowedIn(s: Setup, w: seq<M.Entry>, items: seq<Item>, from: int): nat {
    if items == [] then 0
    else
      var n := |items| - 1;
      AllowedIn(s, w, items[..n], from)
      + if VerdictAt(s, w, items, n) == M.Allow && from <= items[n].recordAt <= from + M.HOUR_MS then 1 else 0
  }

  /** A session is a run of the gate: same window, and each allowed action logged as unapproved. */
  lemma {:induction false} SessionIsARun(s: Setup, start: int, prior: seq<M.Event>, items: seq<Item>, from: int)
    ensures var before := M.Run(s.policy, start, prior);
      var after := M.Run(s.policy, start, prior + Events(s, items));
      && after.window == LoopWindow(s, before.window, items)
      && M.UnapprovedIn(after.log, from) == M.UnapprovedIn(before.log, from) + AllowedIn(s, before.window, items, from)
  {
    hide M.VerdictOn, M.WindowAfter, M.Run, M.UnapprovedIn, ImpactOf;
    if items == [] {
      assert prior + Events(s, items) == prior;
    } else {
      var n := |items| - 1;
      var e := M.Execute(items[n].evalAt, items[n].recordAt, ContextOf(s, items[n]));
      SessionIsARun(s, start, prior, items[..n], from);
      assert prior + Events(s, items) == prior + Events(s, items[..n]) + [e];
      M.RunSnoc(s.policy, start, prior + Events(s, items[..n]), e);
      M.UnapprovedSnoc(M.Run(s.policy, start, prior + Events(s, items[..n])).log,
                     M.Logged(M.Entry(items[n].recordAt, M.Allow), false), from);
    }
  }

  lemma {:induction false} AllAllowedInHour(s: Setup, w: seq<M.Entry>, items: seq<Item>, from: int)
    requires forall i :: 0 <= i < |items| ==> from <= items[i].recordAt <= from + M.HOUR_MS
    ensures |AllowedActions(s, w, items)| == AllowedIn(s, w, items, from)
  {
    hide M.VerdictOn, M.WindowAfter;
    if items != [] {
      AllAllowedInHour(s, w, items[..|items| - 1], from);
    }
  }

  /**
   * Whatever ran before it, with at most `k` executions at a time between evaluation and
   * recording, a session that takes at most an hour executes at most
   * `autonomous_per_hour + k - 1` of its actions.
   */
  lemma {:induction false} SessionLimitInFlight(
    s: Setup, start: int, prior: seq<M.Event>, items: seq<Item>, k: nat, from: int)
    requires M.Ordered(start, prior + Events(s, items))
    requires M.AtMostInFlight(s.policy, start, prior + Events(s, items), k)
    requires forall i :: 0 <= i < |items| ==> from <= items[i].recordAt <= from + M.HOUR_MS
    ensures |AllowedActions(s, M.Run(s.policy, start, prior).window, items)|
      <= M.HourlyBound(s.policy.autonomousPerHour, k)
  {
    hide M.Run, M.AtMostInFlight, AllowedActions, M.Ordered, M.UnapprovedIn;
    SessionIsARun(s, start, prior, items, from);
    M.HourlyLimitInFlight(s.policy, start, prior + Events(s, items), k, from);
    AllAllowedInHour(s, M.Run(s.policy, start, prior).window, items, from);
  }

  /**
   * When everything before it was recorded at once too, a session that takes at most an hour
   * executes at most `autonomous_per_hour` of its actions.
   */
  lemma {:induction false} SessionKeepsHourlyLimit(
    s: Setup, start: int, prior: seq<M.Event>, items: seq<Item>, from: int)
    requires M.Ordered(start, prior + Events(s, items)) && M.RecordsAtOnce(prior)
    requires forall i :: 0 <= i < |items| ==> from <= items[i].recordAt <= from + M.HOUR_MS
    ensures |AllowedActions(s, M.Run(s.policy, start, prior).window, items)| <= Max(s.policy.autonomousPerHour, 0)
  {
    hide M.Run, AllowedActions, M.Ordered, M.UnapprovedIn;
    SessionIsARun(s, start, prior, items, from);
    M.HourlyLimitHolds(s.policy, start, prior + Events(s, items), from);
    AllAllowedInHour(s, M.Run(s.policy, start, prior).window, items, from);
  }

  // ---------------------------------------------------------------------------
  // A fully allowed session realises what the proposer booked
  // ---------------------------------------------------------------------------

  function ActionsOf(items: seq<Item>): seq<Dispatch.Action> {
    seq(|items|, i requires 0 <= i < |items| => items[i].action)
  }

  lemma {:induction false} AllAllowed(s: Setup, w: seq<M.Entry>, items: seq<Item>)
    requires |AllowedActions(s, w, items)| >= |items|
    ensures AllowedActions(s, w, items) == ActionsOf(items)
  {
    hide M.VerdictOn, M.WindowAfter;
    if items != [] {
      var n := |items| - 1;
      AtMostAllAllowed(s, w, items[..n]);
      AllAllowed(s, w, items[..n]);
      assert ActionsOf(items) == ActionsOf(items[..n]) + [items[n].action];
    }
  }

  lemma {:induction false} AtMostAllAllowed(s: Setup, w: seq<M.Entry>, items: seq<Item>)
    ensures |AllowedActions(s, w, items)| <= |items|
  {
    hide M.VerdictOn, M.WindowAfter;
    if items != [] {
      AtMostAllAllowed(s, w, items[..|items| - 1]);
    }
  }

  /**
   * When the proposer's published plan is put through the loop and every action is allowed, the
   * realised state of charge is the booked one up to 0.005 MWh per trade, and the realised
   * revenue is the booked one up to 0.005 per unit of price.
   */
  lemma {:induction false} AllowedPlanIsRealised(s: Setup, w: seq<M.Entry>, items: seq<Item>, vs: seq<M.Verdict>,
                                                 realised: Dispatch.Realised, window: seq<M.Entry>,
                                                 soc: real, lim: Dispatch.Limits, ticks: seq<Dispatch.Tick>)
    requires |vs| == |items| && Along(s, w, items, soc, vs, realised, window)
    requires |AllowedActions(s, w, items)| == |items|
    requires ActionsOf(items) == Dispatch.Publish(ticks, Dispatch.Plan(soc, lim, ticks).moves)
    ensures var l := Dispatch.Plan(soc, lim, ticks);
      && AbsR(realised.soc - l.soc) <= Dispatch.PerTrade(l.moves, 0.005)
      && AbsR(realised.revenue - (l.trading + l.reserve)) <= Dispatch.PerPrice(ticks, l.moves, 0.005)
  {
    hide Dispatch.Plan, Dispatch.Publish, Dispatch.Replay, Dispatch.PerTrade, Dispatch.PerPrice;
    hide HasVerdicts, LoopWindow, AllowedActions;
    AllAllowed(s, w, items);
    assert items[..|items|] == items;
    Dispatch.ReplayTracksFallback(soc, lim, ticks, s.degradationEurPerMwh);
  }

  // ---------------------------------------------------------------------------
  // A partly refused session
  // ---------------------------------------------------------------------------

  function RefusedActions(s: Setup, w: seq<M.Entry>, items: seq<Item>): seq<Dispatch.Action> {
    if items == [] then []
    else
      var n := |items| - 1;
      RefusedActions(s, w, items[..n]) + if VerdictAt(s, w, items, n) == M.Allow then [] else [items[n].action]
  }

  lemma {:induction false} NetSnoc(actions: seq<Dispatch.Action>, a: Dispatch.Action)
    ensures Dispatch.NetEnergy(actions + [a]) == Dispatch.NetEnergy(actions) + Dispatch.Delta(a)
  {
    assert (actions + [a])[..|actions|] == actions;
  }

  lemma {:induction false} AllowedAndRefused(s: Setup, w: seq<M.Entry>, items: seq<Item>)
    ensures Dispatch.NetEnergy(AllowedActions(s, w, items)) + Dispatch.NetEnergy(RefusedActions(s, w, items))
      == Dispatch.NetEnergy(ActionsOf(items))
  {
    hide VerdictAt, Dispatch.Delta, Dispatch.NetEnergy;
    if items == [] {
      NetOfNone();
    } else {
      var n := |items| - 1;
      var allowed, refused := AllowedActions(s, w, items[..n]), RefusedActions(s, w, items[..n]);
      AllowedAndRefused(s, w, items[..n]);
      assert ActionsOf(items) == ActionsOf(items[..n]) + [items[n].action];
      NetSnoc(ActionsOf(items[..n]), items[n].action);
      NetSnoc(allowed, items[n].action);
      NetSnoc(refused, items[n].action);
      assert allowed + [] == allowed && refused + [] == refused;
    }
  }

  lemma {:induction false} NetOfNone()
    ensures Dispatch.NetEnergy([]) == 0.0
  {
  }

  /** The state of charge after the first `n` actions of a session, whatever was refused. */
  function RealisedSoc(s: Setup, w: seq<M.Entry>, items: seq<Item>, soc: real): real {
    Dispatch.Replay(AllowedActions(s, w, items), s.degradationEurPerMwh, soc).soc
  }

  /** What refusals do: the realised charge is the booked one less the net energy refused, up to the rounding. */
  lemma {:induction false} RefusalsShiftSoc(s: Setup, w: seq<M.Entry>, items: seq<Item>, soc: real,
                                            lim: Dispatch.Limits, ticks: seq<Dispatch.Tick>)
    requires ActionsOf(items) == Dispatch.Publish(ticks, Dispatch.Plan(soc, lim, ticks).moves)
    ensures var l := Dispatch.Plan(soc, lim, ticks);
      AbsR(RealisedSoc(s, w, items, soc) - (l.soc - Dispatch.NetEnergy(RefusedActions(s, w, items))))
      <= Dispatch.PerTrade(l.moves, 0.005)
  {
    hide Dispatch.Plan, Dispatch.Publish, Dispatch.Replay, Dispatch.PerTrade, Dispatch.PerPrice, Dispatch.NetEnergy;
    hide AllowedActions, RefusedActions;
    Dispatch.ReplayAddsNetEnergy(AllowedActions(s, w, items), s.degradationEurPerMwh, soc);
    Dispatch.ReplayAddsNetEnergy(ActionsOf(items), s.degradationEurPerMwh, soc);
    AllowedAndRefused(s, w, items);
    Dispatch.ReplayTracksFallback(soc, lim, ticks, s.degradationEurPerMwh);
  }

  /**
   * When a partly refused session stays inside the envelope. At every point of a session on the
   * proposer's plan: with no more energy refused going out than going in, the realised charge
   * does not exceed the ceiling; with no more refused going in than going out, it does not fall
   * below the floor; each up to the rounding of the trades so far.
   */
  lemma {:induction false} RefusalsKeepEnvelope(s: Setup, w: seq<M.Entry>, items: seq<Item>, soc: real,
                                                lim: Dispatch.Limits, ticks: seq<Dispatch.Tick>, n: nat)
    requires ActionsOf(items) == Dispatch.Publish(ticks, Dispatch.Plan(soc, lim, ticks).moves) && n <= |ticks|
    ensures |ticks| == |items|
    ensures var refused := Dispatch.NetEnergy(RefusedActions(s, w, items[..n]));
      var drift := Dispatch.PerTrade(Dispatch.Plan(soc, lim, ticks[..n]).moves, 0.005);
      && (refused <= 0.0 ==> RealisedSoc(s, w, items[..n], soc) >= MinR(soc, lim.floor) - drift)
      && (refused >= 0.0 ==> RealisedSoc(s, w, items[..n], soc) <= MaxR(soc, lim.ceiling) + drift)
  {
    hide Dispatch.Plan, Dispatch.Publish, Dispatch.PerTrade, Dispatch.NetEnergy, RefusedActions, RealisedSoc;
    Dispatch.PlanPrefix(soc, lim, ticks, n);
    assert |ActionsOf(items)| == |items|;
    assert ActionsOf(items[..n]) == ActionsOf(items)[..n];
    RefusalsShiftSoc(s, w, items[..n], soc, lim, ticks[..n]);
    Dispatch.PlanStaysInEnvelope(soc, lim, ticks[..n]);
  }

  // A concrete session that ends below the floor: a charge paid for at a deep negative price is
  // held for co-signature, and the discharge planned on top of it is allowed.

  /** The hourly budgets and the EUR thresholds of src/governance/policies.yaml, with the domain at a limited tier. */
  const HOLDS_LARGE := M.Policy(
    ["eu"], map[], map["energy" := M.Limited], [M.High], [], None, M.AllowWithCosign,
    [M.Threshold("EUR", 1000.0)], [M.Threshold("EUR", 10000.0)], [M.Threshold("EUR", 100000.0)],
    0.85, 0.55, 2, 900_000, [], 12, 24, [])

  const PAID_THEN_DEAR := [Dispatch.Tick("", -500.0, 0.0, 0), Dispatch.Tick("", 100.0, 0.0, 1)]
  const NARROW := Dispatch.Limits(2.0, 0.0, 2.0, 4.0, 4.0, {0}, {1}, {})

  const CHARGE_TWO := Dispatch.Action(Dispatch.Charge, "", Some(2.0), None, Some(-500.0), 0.92)
  const DISCHARGE_TWO := Dispatch.Action(Dispatch.Discharge, "", Some(2.0), None, Some(100.0), 0.90)
  const BOTH := [Item(CHARGE_TWO, 0, 0, "a", "a", ""), Item(DISCHARGE_TWO, 1, 1, "b", "b", "")]

  lemma {:induction false} ChargeThenDischarge()
    ensures Dispatch.Plan(2.0, NARROW, PAID_THEN_DEAR).moves == [Dispatch.Buy(2.0), Dispatch.Sell(2.0)]
    ensures Dispatch.Publish(PAID_THEN_DEAR, [Dispatch.Buy(2.0), Dispatch.Sell(2.0)]) == [CHARGE_TWO, DISCHARGE_TWO]
  {
    hide Dispatch.Plan, Dispatch.Publish;
    var t, u := PAID_THEN_DEAR[0], PAID_THEN_DEAR[1];
    Dispatch.PlanStarts(2.0, NARROW);
    Dispatch.PlanSnoc(2.0, NARROW, [], t);
    assert [] + [t] == [t];
    Dispatch.PlanSnoc(2.0, NARROW, [t], u);
    assert [t] + [u] == PAID_THEN_DEAR;
  }

  lemma {:induction false} ChargeIsHeld(s: Setup)
    requires s.policy == HOLDS_LARGE && s.domain == "energy"
    ensures VerdictAt(s, [], BOTH, 0) != M.Allow
  {
    hide M.JoinAll, M.Overall, M.Nearest;
    var ctx := ContextOf(s, BOTH[0]);
    M.AllowedExactly(ctx, HOLDS_LARGE, 0, 0, 0);
    assert HOLDS_LARGE.cosignThresholds[0] == M.Threshold("EUR", 1000.0);
    assert M.Impact(ctx, HOLDS_LARGE).verdict != M.Allow;
    assert M.Findings(ctx, HOLDS_LARGE, 0, 0, 0)[3] == M.Impact(ctx, HOLDS_LARGE);
    assert BOTH[..0] == [];
  }

  /** A small reversible action of the domain, with the evidence the loop states. */
  predicate IsSmall(ctx: M.Context) {
    && ctx.domain == "energy" && ctx.confidence >= 0.85 && ctx.reversible && ctx.dataResidency == "eu"
    && -1000.0 < ctx.impactValue < 1000.0 && ctx.sourceCount >= 2 && ctx.lastRefreshMs <= 900_000
  }

  lemma {:induction false} EnergyIsLimited(tier: M.Tier)
    ensures M.HasTier(HOLDS_LARGE, "energy", tier) <==> tier == M.Limited
  {
    assert "energy" in HOLDS_LARGE.domainTiers && M.IsAncestor("energy", "energy");
    assert M.IsNearest(HOLDS_LARGE, "energy", "energy");
  }

  lemma {:induction false} SmallActionPasses(ctx: M.Context, now: int)
    requires IsSmall(ctx)
    ensures M.Overall(ctx, HOLDS_LARGE, now, 0, 0) == M.Allow
  {
    hide M.Overall, M.HasTier;
    M.VerdictIsExact(ctx, HOLDS_LARGE, now, 0, 0);
    EnergyIsLimited(M.Limited);
    EnergyIsLimited(M.High);
    EnergyIsLimited(M.Unacceptable);
  }

  lemma {:induction false} DischargeIsAllowed(s: Setup)
    requires s.policy == HOLDS_LARGE && s.domain == "energy"
    ensures VerdictAt(s, [], BOTH, 1) == M.Allow
  {
    hide M.Overall;
    ChargeIsHeld(s);
    SmallActionPasses(ContextOf(s, BOTH[1]), 1);
    LoopStep(s, [], BOTH, 0, VerdictAt(s, [], BOTH, 0));
    assert BOTH[..0] == [];
  }

  /** The refusal takes the battery a full trade below a floor the plan itself keeps. */
  lemma {:induction false} RefusedChargeBreaksFloor(s: Setup)
    requires s.policy == HOLDS_LARGE && s.domain == "energy"
    ensures ActionsOf(BOTH) == Dispatch.Publish(PAID_THEN_DEAR, Dispatch.Plan(2.0, NARROW, PAID_THEN_DEAR).moves)
    ensures RealisedSoc(s, [], BOTH, 2.0) == NARROW.floor - 2.0
  {
    hide VerdictAt, LoopWindow, AllowedActions, Dispatch.Replay, Dispatch.Plan, Dispatch.Publish, M.VerdictOn;
    ChargeThenDischarge();
    ChargeIsHeld(s);
    DischargeIsAllowed(s);
    ReplayStep(s, [], BOTH, 0, 2.0);
    ReplayStep(s, [], BOTH, 1, 2.0);
    LoopStarts(s, [], [], 2.0, [], 0);
    assert BOTH[..0] == [] && BOTH[..2] == BOTH;
  }
}
