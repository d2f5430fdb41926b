/**
 * The MI9 gate: nine findings joined into one verdict, and the in-memory sliding window the
 * rate gate reads. Times are integer milliseconds; one evaluation reads the clock once.
 */
module Mi9Gate {
  import opened Prelude

  datatype Verdict = Allow | AllowWithCosign | Escalate | Block

  function Rank(v: Verdict): nat {
    match v case Allow => 0 case AllowWithCosign => 1 case Escalate => 2 case Block => 3
  }

  datatype Tier = Minimal | Limited | High | Unacceptable

  datatype TaskClass = Operational | Analytical | Conversational

  datatype Approval = Approval(decisionId: string, approvedBy: string, approvedAtMs: int)

  datatype Context = Context(
    decisionId: string,
    domain: string,
    confidence: real,
    reversible: bool,
    impactUnit: string,
    impactValue: real,
    dataResidency: string,
    subjectJurisdiction: string,
    sourceCount: int,
    lastRefreshMs: int,
    consensusReached: bool,
    taskClass: Option<TaskClass>,
    priorApproval: Option<Approval>,
    fallbackAvailable: bool)

  datatype Threshold = Threshold(unit: string, value: real)

  datatype Policy = Policy(
    allowedResidencies: seq<string>,
    requiredForJurisdictions: map<string, seq<string>>,
    domainTiers: map<string, Tier>,
    cosignAtTiers: seq<Tier>,
    escalateAtTiers: seq<Tier>,
    unknownDomainTier: Option<Tier>,
    irreversibleVerdict: Verdict,
    cosignThresholds: seq<Threshold>,
    escalationThresholds: seq<Threshold>,
    blockThresholds: seq<Threshold>,
    minimumAutonomous: real,
    minimumCosign: real,
    minSourceCount: int,
    maxDataAgeMs: int,
    consensusDomains: seq<string>,
    autonomousPerHour: int,
    cosignPerHour: int,
    fallbackDomains: seq<string>)

  datatype Finding = Finding(gateNumber: nat, gateName: string, verdict: Verdict)

  // ---------------------------------------------------------------------------
  // Domains and tiers
  // ---------------------------------------------------------------------------

  /** `a` is the domain itself or one of its dotted ancestors. */
  predicate IsAncestor(a: string, domain: string) {
    a <= domain && (|a| == |domain| || domain[|a|] == '.')
  }

  /** Where the dot-separated parts of a domain end, up to position `e`, in order. */
  function PartEnds(domain: string, e: nat): (ends: seq<nat>)
    requires e <= |domain|
    ensures forall p :: p in ends <==> 0 <= p <= e && (p == |domain| || domain[p] == '.')
    ensures forall i :: 0 <= i < |ends| ==> ends[i] <= e
    ensures forall i, j :: 0 <= i < j < |ends| ==> ends[i] < ends[j]
  {
    (if e == 0 then [] else PartEnds(domain, e - 1)) +
    (if e == |domain| || domain[e] == '.' then [e] else [])
  }

  /** `domain.split('.').slice(0, n).join('.')`: the text up to the end of the n-th part. */
  function Prefix(domain: string, ends: seq<nat>, n: nat): string
    requires 1 <= n <= |ends| && ends == PartEnds(domain, |domain|)
  {
    assert ends[n - 1] in ends;
    domain[..ends[n - 1]]
  }

  /** The nearest classified candidate among the first `n` prefixes. */
  function NearestFrom(domain: string, ends: seq<nat>, n: nat, tiers: map<string, Tier>): Option<string>
    requires n <= |ends| && ends == PartEnds(domain, |domain|)
  {
    if n == 0 then None
    else if Prefix(domain, ends, n) in tiers then Some(Prefix(domain, ends, n))
    else NearestFrom(domain, ends, n - 1, tiers)
  }

  function Nearest(domain: string, tiers: map<string, Tier>): Option<string> {
    var ends := PartEnds(domain, |domain|);
    NearestFrom(domain, ends, |ends|, tiers)
  }

  /** `resolveDomainTier`: the tier, and the rule it rests on. */
  method ResolveDomainTier(domain: string, tiers: map<string, Tier>)
    returns (tier: Option<Tier>, matched: Option<string>)
    ensures matched == Nearest(domain, tiers)
    ensures tier.Some? <==> matched.Some?
    ensures matched.Some? ==> matched.value in tiers && tier.value == tiers[matched.value]
  {
    var ends := PartEnds(domain, |domain|);
    var length := |ends|;
    while length > 0
      invariant 0 <= length <= |ends|
      invariant NearestFrom(domain, ends, length, tiers) == Nearest(domain, tiers)
    {
      var candidate := Prefix(domain, ends, length);
      if candidate in tiers {
        return Some(tiers[candidate]), Some(candidate);
      }
      length := length - 1;
    }
    return None, None;
  }

  lemma {:induction false} NearestFromIsLongest(domain: string, ends: seq<nat>, n: nat, tiers: map<string, Tier>)
    requires n <= |ends| && ends == PartEnds(domain, |domain|)
    ensures var r := NearestFrom(domain, ends, n, tiers);
      && (r.Some? ==> r.value in tiers && IsAncestor(r.value, domain))
      && forall m :: 0 <= m < n && domain[..ends[m]] in tiers ==> r.Some? && ends[m] <= |r.value|
  {
    if n > 0 {
      assert ends[n - 1] in ends;
      NearestFromIsLongest(domain, ends, n - 1, tiers);
    }
  }

  /**
   * Inheritance with a floor: the match is the longest classified ancestor, and there is none only
   * if no ancestor is classified.
   */
  lemma {:induction false} NearestIsLongestAncestor(domain: string, tiers: map<string, Tier>)
    ensures var r := Nearest(domain, tiers);
      && (r.Some? ==> r.value in tiers && IsAncestor(r.value, domain))
      && forall a :: a in tiers && IsAncestor(a, domain) ==> r.Some? && |a| <= |r.value|
  {
    var ends := PartEnds(domain, |domain|);
    NearestFromIsLongest(domain, ends, |ends|, tiers);
    forall a | a in tiers && IsAncestor(a, domain)
      ensures Nearest(domain, tiers).Some? && |a| <= |Nearest(domain, tiers).value|
    {
      var m :| 0 <= m < |ends| && ends[m] == |a|;
      assert domain[..ends[m]] == a;
    }
  }

  // ---------------------------------------------------------------------------
  // The gates
  // ---------------------------------------------------------------------------

  function Sovereignty(ctx: Context, p: Policy): Finding {
    var required := if ctx.subjectJurisdiction in p.requiredForJurisdictions
                    then p.requiredForJurisdictions[ctx.subjectJurisdiction] else [];
    Finding(1, "sovereignty",
      if ctx.dataResidency !in p.allowedResidencies then Block
      else if required != [] && ctx.dataResidency !in required then Block
      else Allow)
  }

  function EffectiveTier(ctx: Context, p: Policy): Tier {
    match Nearest(ctx.domain, p.domainTiers)
    case Some(m) => if m in p.domainTiers then p.domainTiers[m] else Unacceptable
    case None => if p.unknownDomainTier.Some? then p.unknownDomainTier.value else Unacceptable
  }

  function RiskTier(ctx: Context, p: Policy): Finding {
    var tier := EffectiveTier(ctx, p);
    Finding(2, "risk-tier",
      if tier == Unacceptable then Block
      else if tier in p.escalateAtTiers then Escalate
      else if tier in p.cosignAtTiers then AllowWithCosign
      else Allow)
  }

  function Reversibility(ctx: Context, p: Policy): Finding {
    Finding(3, "reversibility", if !ctx.reversible then p.irreversibleVerdict else Allow)
  }

  /** Some threshold of this unit is reached. */
  predicate Reaches(unit: string, magnitude: real, ts: seq<Threshold>) {
    exists i :: 0 <= i < |ts| && ts[i].unit == unit && magnitude >= ts[i].value
  }

  function Impact(ctx: Context, p: Policy): Finding {
    var magnitude := AbsR(ctx.impactValue);
    Finding(4, "impact-magnitude",
      if Reaches(ctx.impactUnit, magnitude, p.blockThresholds) then Block
      else if Reaches(ctx.impactUnit, magnitude, p.escalationThresholds) then Escalate
      else if Reaches(ctx.impactUnit, magnitude, p.cosignThresholds) then AllowWithCosign
      else Allow)
  }

  function Confidence(ctx: Context, p: Policy): Finding {
    Finding(5, "confidence",
      if ctx.confidence < p.minimumCosign then Escalate
      else if ctx.confidence < p.minimumAutonomous then AllowWithCosign
      else Allow)
  }

  function Evidence(ctx: Context, p: Policy): Finding {
    Finding(6, "evidence",
      if ctx.sourceCount < p.minSourceCount then Escalate
      else if ctx.lastRefreshMs > p.maxDataAgeMs then AllowWithCosign
      else if ctx.domain in p.consensusDomains && !ctx.consensusReached then Escalate
      else Allow)
  }

  function PolicyCompliance(ctx: Context, p: Policy): Finding {
    Finding(7, "policy-compliance", Allow)
  }

  function Fallback(ctx: Context, p: Policy): Finding {
    Finding(9, "fallback", if ctx.domain in p.fallbackDomains && !ctx.fallbackAvailable then Block else Allow)
  }

  // ---------------------------------------------------------------------------
  // Gate 8 and its window
  // ---------------------------------------------------------------------------

  const HOUR_MS := 60 * 60 * 1000
  const APPROVAL_VALIDITY_MS := 15 * 60 * 1000

  datatype Entry = Entry(ts: int, verdict: Verdict)

  function Prune(w: seq<Entry>, cutoff: int): seq<Entry> {
    if w != [] && w[0].ts < cutoff then Prune(w[1..], cutoff) else w
  }

  function CountOf(w: seq<Entry>, v: Verdict): nat {
    if w == [] then 0 else CountOf(w[..|w| - 1], v) + if w[|w| - 1].verdict == v then 1 else 0
  }

  /** `kept` is `w` from its first entry at or after the cutoff on. */
  ghost predicate IsPruned(w: seq<Entry>, kept: seq<Entry>, cutoff: int) {
    && |kept| <= |w| && kept == w[|w| - |kept|..]
    && (forall i :: 0 <= i < |w| - |kept| ==> w[i].ts < cutoff)
    && (kept != [] ==> kept[0].ts >= cutoff)
  }

  lemma {:induction false} PrunedIsExact(w: seq<Entry>, cutoff: int)
    ensures IsPruned(w, Prune(w, cutoff), cutoff)
  {
    if w != [] && w[0].ts < cutoff {
      PrunedIsExact(w[1..], cutoff);
    }
  }

  /** Where in the window this verdict stands. */
  ghost function Places(w: seq<Entry>, v: Verdict): set<int> {
    set i | 0 <= i < |w| && w[i].verdict == v
  }

  lemma {:induction false} PlacesSnoc(w: seq<Entry>, v: Verdict)
    requires w != []
    ensures var n := |w| - 1;
      Places(w, v) == Places(w[..n], v) + (if w[n].verdict == v then {n} else {}) && n !in Places(w[..n], v)
  {
  }

  lemma {:induction false} CountIsNumber(w: seq<Entry>, v: Verdict)
    ensures CountOf(w, v) == |Places(w, v)|
  {
    if w != [] {
      hide Places;
      CountIsNumber(w[..|w| - 1], v);
      PlacesSnoc(w, v);
    }
  }

  predicate HasValidPriorApproval(ctx: Context, now: int) {
    match ctx.priorApproval
    case None => false
    case Some(a) => a.decisionId == ctx.decisionId && 0 <= now - a.approvedAtMs <= APPROVAL_VALIDITY_MS
  }

  function ClassOf(ctx: Context): TaskClass {
    if ctx.taskClass.Some? then ctx.taskClass.value else Operational
  }

  /** The rate gate looks at the window. */
  predicate Charged(ctx: Context, now: int) {
    !HasValidPriorApproval(ctx, now) && ClassOf(ctx) == Operational
  }

  function RateLimits(ctx: Context, p: Policy, now: int, auto: nat, cosign: nat): Finding {
    Finding(8, "rate-limits",
      if !Charged(ctx, now) then Allow
      else if auto >= p.autonomousPerHour then AllowWithCosign
      else if cosign >= p.cosignPerHour then Escalate
      else Allow)
  }

  // ---------------------------------------------------------------------------
  // Aggregation
  // ---------------------------------------------------------------------------

  function Strictest(a: Verdict, b: Verdict): Verdict {
    if Rank(a) >= Rank(b) then a else b
  }

  function JoinAll(fs: seq<Finding>): Verdict {
    if fs == [] then Allow else Strictest(JoinAll(fs[..|fs| - 1]), fs[|fs| - 1].verdict)
  }

  function Findings(ctx: Context, p: Policy, now: int, auto: nat, cosign: nat): seq<Finding> {
    [Sovereignty(ctx, p), RiskTier(ctx, p), Reversibility(ctx, p), Impact(ctx, p), Confidence(ctx, p),
     Evidence(ctx, p), PolicyCompliance(ctx, p), RateLimits(ctx, p, now, auto, cosign), Fallback(ctx, p)]
  }

  /** The verdict when `auto` and `cosign` decisions are in the window. */
  function Overall(ctx: Context, p: Policy, now: int, auto: nat, cosign: nat): Verdict {
    JoinAll(Findings(ctx, p, now, auto, cosign))
  }

  function WindowAfter(w: seq<Entry>, ctx: Context, now: int): seq<Entry> {
    if Charged(ctx, now) then Prune(w, now - HOUR_MS) else w
  }

  /** The verdict `evaluate` gives on window `w`: only a charged context has its window pruned and counted. */
  function VerdictOn(w: seq<Entry>, ctx: Context, p: Policy, now: int): Verdict {
    var w' := WindowAfter(w, ctx, now);
    Overall(ctx, p, now, CountOf(w', Allow), CountOf(w', AllowWithCosign))
  }

  datatype MI9Result = MI9Result(
    decisionId: string,
    verdict: Verdict,
    findings: seq<Finding>,
    humanCoSignRequired: bool,
    escalationTarget: Option<string>,
    blockingGate: Option<nat>)

  /** The gate named by the block reason: the first that blocks. */
  function FirstBlocking(fs: seq<Finding>): Option<nat> {
    if fs == [] then None
    else
      var front := FirstBlocking(fs[..|fs| - 1]);
      if front.None? && fs[|fs| - 1].verdict == Block then Some(fs[|fs| - 1].gateNumber) else front
  }

  // ---------------------------------------------------------------------------
  // What each gate asks of a decision
  // ---------------------------------------------------------------------------

  /** How a verdict follows from what asks for a block, an escalation and a co-signature. */
  predicate Graded(v: Verdict, block: bool, escalate: bool, cosign: bool) {
    && (v == Block <==> block)
    && (v == Escalate <==> !block && escalate)
    && (v == AllowWithCosign <==> !block && !escalate && cosign)
    && (v == Allow <==> !block && !escalate && !cosign)
  }

  /** Data may not lie there at all, or not for this subject. */
  ghost predicate ResidencyRefused(ctx: Context, p: Policy) {
    || ctx.dataResidency !in p.allowedResidencies
    || (ctx.subjectJurisdiction in p.requiredForJurisdictions
        && p.requiredForJurisdictions[ctx.subjectJurisdiction] != []
        && ctx.dataResidency !in p.requiredForJurisdictions[ctx.subjectJurisdiction])
  }

  /** `a` is the longest classified ancestor of the domain. */
  ghost predicate IsNearest(p: Policy, domain: string, a: string) {
    && a in p.domainTiers && IsAncestor(a, domain)
    && forall b :: b in p.domainTiers && IsAncestor(b, domain) ==> |b| <= |a|
  }

  /** The tier of the longest classified ancestor, or the one stated for unknown domains, or unacceptable. */
  ghost predicate HasTier(p: Policy, domain: string, tier: Tier) {
    || (exists a :: IsNearest(p, domain, a) && p.domainTiers[a] == tier)
    || ((forall a :: a in p.domainTiers ==> !IsAncestor(a, domain))
        && (p.unknownDomainTier == Some(tier) || (p.unknownDomainTier == None && tier == Unacceptable)))
  }

  ghost predicate TierAmong(p: Policy, domain: string, tiers: seq<Tier>) {
    exists tier :: HasTier(p, domain, tier) && tier in tiers
  }

  /** An impact of this unit is as large as a threshold, up or down. */
  ghost predicate ImpactAmong(ctx: Context, ts: seq<Threshold>) {
    exists t :: t in ts && t.unit == ctx.impactUnit && (ctx.impactValue >= t.value || -ctx.impactValue >= t.value)
  }

  ghost predicate ConsensusMissing(ctx: Context, p: Policy) {
    ctx.domain in p.consensusDomains && !ctx.consensusReached
  }

  /** Approved for this very decision, at most a quarter of an hour ago. */
  ghost predicate Approved(ctx: Context, now: int) {
    && ctx.priorApproval.Some? && ctx.priorApproval.value.decisionId == ctx.decisionId
    && ctx.priorApproval.value.approvedAtMs <= now <= ctx.priorApproval.value.approvedAtMs + 900_000
  }

  /** The hourly budgets apply. */
  ghost predicate Budgeted(ctx: Context, now: int) {
    !Approved(ctx, now) && (ctx.taskClass == None || ctx.taskClass == Some(Operational))
  }

  ghost predicate MustBlock(ctx: Context, p: Policy) {
    || ResidencyRefused(ctx, p)
    || HasTier(p, ctx.domain, Unacceptable)
    || (!ctx.reversible && p.irreversibleVerdict == Block)
    || ImpactAmong(ctx, p.blockThresholds)
    || (ctx.domain in p.fallbackDomains && !ctx.fallbackAvailable)
  }

  ghost predicate MustEscalate(ctx: Context, p: Policy, now: int, auto: nat, cosign: nat) {
    || TierAmong(p, ctx.domain, p.escalateAtTiers)
    || (!ctx.reversible && p.irreversibleVerdict == Escalate)
    || ImpactAmong(ctx, p.escalationThresholds)
    || ctx.confidence < p.minimumCosign
    || ctx.sourceCount < p.minSourceCount
    || (ctx.lastRefreshMs <= p.maxDataAgeMs && ConsensusMissing(ctx, p))
    || (Budgeted(ctx, now) && auto < p.autonomousPerHour && cosign >= p.cosignPerHour)
  }

  ghost predicate MustCosign(ctx: Context, p: Policy, now: int, auto: nat) {
    || TierAmong(p, ctx.domain, p.cosignAtTiers)
    || (!ctx.reversible && p.irreversibleVerdict == AllowWithCosign)
    || ImpactAmong(ctx, p.cosignThresholds)
    || ctx.confidence < p.minimumAutonomous
    || ctx.lastRefreshMs > p.maxDataAgeMs
    || (Budgeted(ctx, now) && auto >= p.autonomousPerHour)
  }

  const GATE_NAMES := ["sovereignty", "risk-tier", "reversibility", "impact-magnitude", "confidence", "evidence",
                       "policy-compliance", "rate-limits", "fallback"]

  /** The nine findings, each with exactly what brings it about. */
  ghost predicate GatesDecide(ctx: Context, p: Policy, now: int, auto: nat, cosign: nat, fs: seq<Finding>) {
    && |fs| == 9
    && (forall i :: 0 <= i < 9 ==> fs[i].gateNumber == i + 1 && fs[i].gateName == GATE_NAMES[i])
    && Graded(fs[0].verdict, ResidencyRefused(ctx, p), false, false)
    && Graded(fs[1].verdict, HasTier(p, ctx.domain, Unacceptable),
              TierAmong(p, ctx.domain, p.escalateAtTiers), TierAmong(p, ctx.domain, p.cosignAtTiers))
    && fs[2].verdict == (if ctx.reversible then Allow else p.irreversibleVerdict)
    && Graded(fs[3].verdict, ImpactAmong(ctx, p.blockThresholds),
              ImpactAmong(ctx, p.escalationThresholds), ImpactAmong(ctx, p.cosignThresholds))
    && Graded(fs[4].verdict, false, ctx.confidence < p.minimumCosign, ctx.confidence < p.minimumAutonomous)
    && Graded(fs[5].verdict, false,
              ctx.sourceCount < p.minSourceCount || (ctx.lastRefreshMs <= p.maxDataAgeMs && ConsensusMissing(ctx, p)),
              ctx.lastRefreshMs > p.maxDataAgeMs)
    && fs[6].verdict == Allow
    && Graded(fs[7].verdict, false,
              Budgeted(ctx, now) && auto < p.autonomousPerHour && cosign >= p.cosignPerHour,
              Budgeted(ctx, now) && auto >= p.autonomousPerHour)
    && Graded(fs[8].verdict, ctx.domain in p.fallbackDomains && !ctx.fallbackAvailable, false, false)
  }

  lemma {:induction false} TierIsEffective(ctx: Context, p: Policy, tier: Tier)
    ensures HasTier(p, ctx.domain, tier) <==> tier == EffectiveTier(ctx, p)
  {
    hide Nearest;
    NearestIsLongestAncestor(ctx.domain, p.domainTiers);
    var r := Nearest(ctx.domain, p.domainTiers);
    if r.Some? {
      assert IsNearest(p, ctx.domain, r.value);
      forall a | IsNearest(p, ctx.domain, a)
        ensures a == r.value
      {
        assert |a| == |r.value|;
        assert a == ctx.domain[..|a|] && r.value == ctx.domain[..|r.value|];
      }
    }
  }

  lemma {:induction false} TierIsExact(ctx: Context, p: Policy)
    ensures Graded(RiskTier(ctx, p).verdict, HasTier(p, ctx.domain, Unacceptable),
                   TierAmong(p, ctx.domain, p.escalateAtTiers), TierAmong(p, ctx.domain, p.cosignAtTiers))
  {
    hide EffectiveTier, HasTier;
    forall tier
      ensures HasTier(p, ctx.domain, tier) <==> tier == EffectiveTier(ctx, p)
    {
      TierIsEffective(ctx, p, tier);
    }
  }

  lemma {:induction false} ReachesIsAmong(ctx: Context, ts: seq<Threshold>)
    ensures Reaches(ctx.impactUnit, AbsR(ctx.impactValue), ts) <==> ImpactAmong(ctx, ts)
  {
    if t :| t in ts && t.unit == ctx.impactUnit && (ctx.impactValue >= t.value || -ctx.impactValue >= t.value) {
      var i :| 0 <= i < |ts| && ts[i] == t;
      assert AbsR(ctx.impactValue) >= ts[i].value;
    }
  }

  lemma {:induction false} ImpactIsExact(ctx: Context, p: Policy)
    ensures Graded(Impact(ctx, p).verdict, ImpactAmong(ctx, p.blockThresholds),
                   ImpactAmong(ctx, p.escalationThresholds), ImpactAmong(ctx, p.cosignThresholds))
  {
    hide Reaches, ImpactAmong, AbsR;
    ReachesIsAmong(ctx, p.blockThresholds);
    ReachesIsAmong(ctx, p.escalationThresholds);
    ReachesIsAmong(ctx, p.cosignThresholds);
  }

  lemma {:induction false} PlainGatesAreExact(ctx: Context, p: Policy)
    ensures Graded(Sovereignty(ctx, p).verdict, ResidencyRefused(ctx, p), false, false)
    ensures Reversibility(ctx, p).verdict == if ctx.reversible then Allow else p.irreversibleVerdict
    ensures Graded(Confidence(ctx, p).verdict, false, ctx.confidence < p.minimumCosign,
                   ctx.confidence < p.minimumAutonomous)
    ensures Graded(Fallback(ctx, p).verdict, ctx.domain in p.fallbackDomains && !ctx.fallbackAvailable, false, false)
  {
  }

  lemma {:induction false} EvidenceIsExact(ctx: Context, p: Policy)
    ensures Graded(Evidence(ctx, p).verdict, false,
                   ctx.sourceCount < p.minSourceCount
                   || (ctx.lastRefreshMs <= p.maxDataAgeMs && ConsensusMissing(ctx, p)),
                   ctx.lastRefreshMs > p.maxDataAgeMs)
  {
  }

  lemma {:induction false} RateIsExact(ctx: Context, p: Policy, now: int, auto: nat, cosign: nat)
    ensures Graded(RateLimits(ctx, p, now, auto, cosign).verdict, false,
                   Budgeted(ctx, now) && auto < p.autonomousPerHour && cosign >= p.cosignPerHour,
                   Budgeted(ctx, now) && auto >= p.autonomousPerHour)
  {
    BudgetedIsCharged(ctx, now);
  }

  lemma {:induction false} BudgetedIsCharged(ctx: Context, now: int)
    ensures Budgeted(ctx, now) <==> Charged(ctx, now)
  {
  }

  lemma {:induction false} GatesAreNumbered(ctx: Context, p: Policy, now: int, auto: nat, cosign: nat)
    ensures var fs := Findings(ctx, p, now, auto, cosign);
      |fs| == 9 && forall i :: 0 <= i < 9 ==> fs[i].gateNumber == i + 1 && fs[i].gateName == GATE_NAMES[i]
  {
    hide EffectiveTier, Reaches, Charged;
  }

  /** Each finding comes about exactly as the policy and the decision ask for it. */
  lemma {:induction false} GatesAreExact(ctx: Context, p: Policy, now: int, auto: nat, cosign: nat)
    ensures GatesDecide(ctx, p, now, auto, cosign, Findings(ctx, p, now, auto, cosign))
  {
    hide Sovereignty, RiskTier, Reversibility, Impact, Confidence, Evidence, RateLimits, Fallback;
    hide Graded, HasTier, TierAmong, ImpactAmong, ResidencyRefused, ConsensusMissing, Budgeted;
    PlainGatesAreExact(ctx, p);
    TierIsExact(ctx, p);
    ImpactIsExact(ctx, p);
    EvidenceIsExact(ctx, p);
    RateIsExact(ctx, p, now, auto, cosign);
    GatesAreNumbered(ctx, p, now, auto, cosign);
  }

  ghost predicate SomeFinds(fs: seq<Finding>, v: Verdict) {
    exists i :: 0 <= i < |fs| && fs[i].verdict == v
  }

  /** The verdict is the strictest that any gate finds. */
  lemma {:induction false} JoinIsGraded(fs: seq<Finding>)
    ensures Graded(JoinAll(fs), SomeFinds(fs, Block), SomeFinds(fs, Escalate), SomeFinds(fs, AllowWithCosign))
  {
    JoinAllIsJoin(fs);
    assert forall i :: 0 <= i < |fs| ==> fs[i] in fs;
  }

  lemma {:induction false} NineFind(fs: seq<Finding>, v: Verdict)
    requires |fs| == 9
    ensures SomeFinds(fs, v) <==>
      || fs[0].verdict == v || fs[1].verdict == v || fs[2].verdict == v || fs[3].verdict == v || fs[4].verdict == v
      || fs[5].verdict == v || fs[6].verdict == v || fs[7].verdict == v || fs[8].verdict == v
  {
  }

  lemma {:induction false} BlockHasItsCause(
    ctx: Context, p: Policy, now: int, auto: nat, cosign: nat, fs: seq<Finding>)
    requires GatesDecide(ctx, p, now, auto, cosign, fs)
    ensures SomeFinds(fs, Block) <==> MustBlock(ctx, p)
  {
    hide SomeFinds, HasTier, TierAmong, ImpactAmong, ResidencyRefused, Budgeted, ConsensusMissing;
    NineFind(fs, Block);
  }

  lemma {:induction false} HeldHasItsCause(
    ctx: Context, p: Policy, now: int, auto: nat, cosign: nat, fs: seq<Finding>)
    requires GatesDecide(ctx, p, now, auto, cosign, fs) && !MustBlock(ctx, p)
    ensures SomeFinds(fs, Escalate) <==> MustEscalate(ctx, p, now, auto, cosign)
    ensures !SomeFinds(fs, Escalate) ==> (SomeFinds(fs, AllowWithCosign) <==> MustCosign(ctx, p, now, auto))
  {
    hide SomeFinds, HasTier, TierAmong, ImpactAmong, ResidencyRefused, Budgeted, ConsensusMissing;
    NineFind(fs, Escalate);
    NineFind(fs, AllowWithCosign);
  }

  /** Exactly when a decision is blocked, escalated, held for co-signature and allowed. */
  lemma {:induction false} VerdictIsExact(ctx: Context, p: Policy, now: int, auto: nat, cosign: nat)
    ensures Graded(Overall(ctx, p, now, auto, cosign), MustBlock(ctx, p),
                   MustEscalate(ctx, p, now, auto, cosign), MustCosign(ctx, p, now, auto))
  {
    hide Findings, JoinAll, MustBlock, MustEscalate, MustCosign, SomeFinds, GatesDecide;
    var fs := Findings(ctx, p, now, auto, cosign);
    GatesAreExact(ctx, p, now, auto, cosign);
    JoinIsGraded(fs);
    BlockHasItsCause(ctx, p, now, auto, cosign, fs);
    if !MustBlock(ctx, p) {
      HeldHasItsCause(ctx, p, now, auto, cosign, fs);
    }
  }

  /** The gate's mutable half: the list `decisionsThisHour`. */
  class Gate {
    var decisionsThisHour: seq<Entry>

    constructor ()
      ensures decisionsThisHour == []
    {
      decisionsThisHour := [];
    }

    /** What is left begins with the first entry of the last hour; all before it are older. */
    method PruneOldDecisions(now: int)
      modifies this
      ensures decisionsThisHour == Prune(old(decisionsThisHour), now - HOUR_MS)
      ensures IsPruned(old(decisionsThisHour), decisionsThisHour, now - 3_600_000)
    {
      PrunedIsExact(decisionsThisHour, now - HOUR_MS);
      var cutoff := now - HOUR_MS;
      while |decisionsThisHour| > 0 && decisionsThisHour[0].ts < cutoff
        invariant Prune(decisionsThisHour, cutoff) == Prune(old(decisionsThisHour), cutoff)
        decreases |decisionsThisHour|
      {
        decisionsThisHour := decisionsThisHour[1..];
      }
    }

    method AutonomousCount(now: int) returns (n: nat)
      modifies this
      ensures decisionsThisHour == Prune(old(decisionsThisHour), now - HOUR_MS)
      ensures n == CountOf(decisionsThisHour, Allow)
      ensures n == |Places(decisionsThisHour, Allow)|
    {
      PruneOldDecisions(now);
      CountIsNumber(decisionsThisHour, Allow);
      n := CountOf(decisionsThisHour, Allow);
    }

    method CosignCount(now: int) returns (n: nat)
      modifies this
      ensures decisionsThisHour == Prune(old(decisionsThisHour), now - HOUR_MS)
      ensures n == CountOf(decisionsThisHour, AllowWithCosign)
      ensures n == |Places(decisionsThisHour, AllowWithCosign)|
    {
      PruneOldDecisions(now);
      CountIsNumber(decisionsThisHour, AllowWithCosign);
      n := CountOf(decisionsThisHour, AllowWithCosign);
    }

    method RecordExecution(verdict: Verdict, taskClass: Option<TaskClass>, now: int)
      modifies this
      ensures decisionsThisHour == Recorded(old(decisionsThisHour), verdict, taskClass, now)
      ensures taskClass in {None, Some(Operational)} && verdict in {Allow, AllowWithCosign} ==>
        decisionsThisHour == old(decisionsThisHour) + [Entry(now, verdict)]
      ensures taskClass in {Some(Analytical), Some(Conversational)} || verdict in {Escalate, Block} ==>
        decisionsThisHour == old(decisionsThisHour)
    {
      var cls := if taskClass.Some? then taskClass.value else Operational;
      if cls == Operational && (verdict == Allow || verdict == AllowWithCosign) {
        decisionsThisHour := decisionsThisHour + [Entry(now, verdict)];
      }
    }

    method GateRateLimits(ctx: Context, p: Policy, now: int) returns (f: Finding)
      modifies this
      ensures decisionsThisHour == WindowAfter(old(decisionsThisHour), ctx, now)
      ensures f == RateLimits(
        ctx, p, now, CountOf(decisionsThisHour, Allow), CountOf(decisionsThisHour, AllowWithCosign))
    {
      if HasValidPriorApproval(ctx, now) {
        return Finding(8, "rate-limits", Allow);
      }
      if ClassOf(ctx) != Operational {
        return Finding(8, "rate-limits", Allow);
      }
      var auto := AutonomousCount(now);
      PruneTwice(old(decisionsThisHour), now - HOUR_MS, now - HOUR_MS);
      var cosign := CosignCount(now);
      if auto >= p.autonomousPerHour {
        return Finding(8, "rate-limits", AllowWithCosign);
      }
      if cosign >= p.cosignPerHour {
        return Finding(8, "rate-limits", Escalate);
      }
      f := Finding(8, "rate-limits", Allow);
    }

    method Evaluate(ctx: Context, p: Policy, now: int) returns (r: MI9Result)
      modifies this
      ensures decisionsThisHour == WindowAfter(old(decisionsThisHour), ctx, now)
      ensures r.decisionId == ctx.decisionId
      ensures r.findings == Findings(
        ctx, p, now, CountOf(decisionsThisHour, Allow), CountOf(decisionsThisHour, AllowWithCosign))
      ensures r.verdict == VerdictOn(old(decisionsThisHour), ctx, p, now)
      ensures r.humanCoSignRequired <==> r.verdict == AllowWithCosign || r.verdict == Escalate
      ensures r.escalationTarget == if r.verdict == Escalate then Some("human-dispatcher") else None
      ensures r.blockingGate == FirstBlocking(r.findings)
      ensures var auto, cosign := CountOf(decisionsThisHour, Allow), CountOf(decisionsThisHour, AllowWithCosign);
        && GatesDecide(ctx, p, now, auto, cosign, r.findings)
        && Graded(r.verdict, MustBlock(ctx, p), MustEscalate(ctx, p, now, auto, cosign), MustCosign(ctx, p, now, auto))
      ensures !Budgeted(ctx, now) ==> decisionsThisHour == old(decisionsThisHour)
      ensures Budgeted(ctx, now) ==> IsPruned(old(decisionsThisHour), decisionsThisHour, now - 3_600_000)
    {
      hide MustBlock, MustEscalate, MustCosign, GatesDecide, Graded;
      hide IsPruned, Prune, CountOf, Budgeted, EffectiveTier, Reaches;
      BudgetedIsCharged(ctx, now);
      PrunedIsExact(decisionsThisHour, now - HOUR_MS);
      var rate := GateRateLimits(ctx, p, now);
      var findings := [
        Sovereignty(ctx, p), RiskTier(ctx, p), Reversibility(ctx, p), Impact(ctx, p), Confidence(ctx, p),
        Evidence(ctx, p), PolicyCompliance(ctx, p), rate, Fallback(ctx, p)];
      var verdict := Allow;
      var blocking: Option<nat> := None;
      for i := 0 to |findings|
        invariant verdict == JoinAll(findings[..i])
        invariant blocking == FirstBlocking(findings[..i])
      {
        assert findings[..i + 1][..i] == findings[..i];
        if blocking.None? && findings[i].verdict == Block {
          blocking := Some(findings[i].gateNumber);
        }
        verdict := Strictest(verdict, findings[i].verdict);
      }
      assert findings[..|findings|] == findings;
      r := MI9Result(ctx.decisionId, verdict, findings,
                     verdict == AllowWithCosign || verdict == Escalate,
                     if verdict == Escalate then Some("human-dispatcher") else None,
                     blocking);
      GatesAreExact(ctx, p, now, CountOf(decisionsThisHour, Allow), CountOf(decisionsThisHour, AllowWithCosign));
      VerdictIsExact(ctx, p, now, CountOf(decisionsThisHour, Allow), CountOf(decisionsThisHour, AllowWithCosign));
    }
  }

  function Recorded(w: seq<Entry>, verdict: Verdict, taskClass: Option<TaskClass>, now: int): seq<Entry> {
    if (taskClass == None || taskClass == Some(Operational)) && (verdict == Allow || verdict == AllowWithCosign)
    then w + [Entry(now, verdict)]
    else w
  }

  lemma {:induction false} PruneTwice(w: seq<Entry>, c: int, c': int)
    requires c <= c'
    ensures Prune(Prune(w, c), c') == Prune(w, c')
  {
    if w != [] && w[0].ts < c {
      PruneTwice(w[1..], c, c');
    }
  }

  // ---------------------------------------------------------------------------
  // The verdict is a join
  // ---------------------------------------------------------------------------

  /** `v` is the least verdict at or above every finding. */
  ghost predicate IsJoin(v: Verdict, fs: seq<Finding>) {
    && (forall f :: f in fs ==> Rank(f.verdict) <= Rank(v))
    && (v == Allow || exists f :: f in fs && f.verdict == v)
  }

  lemma {:induction false} JoinAllIsJoin(fs: seq<Finding>)
    ensures IsJoin(JoinAll(fs), fs)
  {
    if fs != [] {
      var front, last := fs[..|fs| - 1], fs[|fs| - 1];
      JoinAllIsJoin(front);
      assert fs == front + [last];
      assert last in fs;
    }
  }

  lemma {:induction false} OneBlockBlocks(fs: seq<Finding>, i: nat)
    requires i < |fs| && fs[i].verdict == Block
    ensures JoinAll(fs) == Block
  {
    JoinAllIsJoin(fs);
    assert fs[i] in fs;
  }

  /** A block always has a gate to name, and only a block has. */
  lemma {:induction false} BlockNamesItsGate(fs: seq<Finding>)
    ensures FirstBlocking(fs).Some? <==> JoinAll(fs) == Block
    ensures FirstBlocking(fs).Some? ==> exists i ::
      && 0 <= i < |fs| && fs[i].verdict == Block && FirstBlocking(fs) == Some(fs[i].gateNumber)
      && forall j :: 0 <= j < i ==> fs[j].verdict != Block
  {
    if fs != [] {
      BlockNamesItsGate(fs[..|fs| - 1]);
      if FirstBlocking(fs[..|fs| - 1]).None? {
        NoneBlocking(fs[..|fs| - 1]);
      }
    }
  }

  lemma {:induction false} NoneBlocking(fs: seq<Finding>)
    requires JoinAll(fs) != Block
    ensures forall j :: 0 <= j < |fs| ==> fs[j].verdict != Block
  {
    JoinAllIsJoin(fs);
    assert forall j :: 0 <= j < |fs| ==> fs[j] in fs;
  }

  /** The order in which the findings are joined does not matter. */
  lemma {:induction false} JoinIgnoresOrder(fs: seq<Finding>, gs: seq<Finding>)
    requires forall f :: f in fs <==> f in gs
    ensures JoinAll(fs) == JoinAll(gs)
  {
    JoinAllIsJoin(fs);
    JoinAllIsJoin(gs);
  }

  lemma {:induction false} JoinIsMonotone(fs: seq<Finding>, gs: seq<Finding>)
    requires |fs| == |gs| && forall i :: 0 <= i < |fs| ==> Rank(fs[i].verdict) <= Rank(gs[i].verdict)
    ensures Rank(JoinAll(fs)) <= Rank(JoinAll(gs))
  {
    if fs != [] {
      JoinIsMonotone(fs[..|fs| - 1], gs[..|gs| - 1]);
    }
  }

  /** `c` is no better supported than `b`: larger impact in the same unit, less confidence, fewer sources, and so on. */
  ghost predicate Weaker(b: Context, c: Context) {
    && c.decisionId == b.decisionId && c.domain == b.domain && c.taskClass == b.taskClass
    && c.dataResidency == b.dataResidency && c.subjectJurisdiction == b.subjectJurisdiction
    && c.lastRefreshMs == b.lastRefreshMs
    && c.impactUnit == b.impactUnit && AbsR(b.impactValue) <= AbsR(c.impactValue)
    && c.confidence <= b.confidence
    && c.sourceCount <= b.sourceCount
    && (c.consensusReached ==> b.consensusReached)
    && (c.reversible ==> b.reversible)
    && (c.fallbackAvailable ==> b.fallbackAvailable)
    && (c.priorApproval == b.priorApproval || c.priorApproval == None)
  }

  /** Losing support never weakens the verdict, under every policy and whatever the window holds. */
  lemma {:induction false} WeakerSupportIsNeverLaxer(
    b: Context, c: Context, p: Policy, now: int, auto: nat, cosign: nat)
    requires Weaker(b, c)
    ensures Rank(Overall(b, p, now, auto, cosign)) <= Rank(Overall(c, p, now, auto, cosign))
  {
    hide JoinAll, Sovereignty, RiskTier, Reversibility, Impact, Confidence, Evidence, RateLimits, Fallback, Weaker;
    WeakerImpact(b, c, p);
    WeakerElsewhere(b, c, p, now, auto, cosign);
    JoinIsMonotone(Findings(b, p, now, auto, cosign), Findings(c, p, now, auto, cosign));
  }

  lemma {:induction false} WeakerImpact(b: Context, c: Context, p: Policy)
    requires Weaker(b, c)
    ensures Rank(Impact(b, p).verdict) <= Rank(Impact(c, p).verdict)
  {
    hide Reaches, AbsR;
    ReachesGrows(b.impactUnit, AbsR(b.impactValue), AbsR(c.impactValue), p.blockThresholds);
    ReachesGrows(b.impactUnit, AbsR(b.impactValue), AbsR(c.impactValue), p.escalationThresholds);
    ReachesGrows(b.impactUnit, AbsR(b.impactValue), AbsR(c.impactValue), p.cosignThresholds);
  }

  lemma {:induction false} WeakerElsewhere(b: Context, c: Context, p: Policy, now: int, auto: nat, cosign: nat)
    requires Weaker(b, c)
    ensures Rank(Sovereignty(b, p).verdict) <= Rank(Sovereignty(c, p).verdict)
    ensures Rank(RiskTier(b, p).verdict) <= Rank(RiskTier(c, p).verdict)
    ensures Rank(Reversibility(b, p).verdict) <= Rank(Reversibility(c, p).verdict)
    ensures Rank(Confidence(b, p).verdict) <= Rank(Confidence(c, p).verdict)
    ensures Rank(Evidence(b, p).verdict) <= Rank(Evidence(c, p).verdict)
    ensures Rank(RateLimits(b, p, now, auto, cosign).verdict) <= Rank(RateLimits(c, p, now, auto, cosign).verdict)
    ensures Rank(Fallback(b, p).verdict) <= Rank(Fallback(c, p).verdict)
  {
    hide Nearest;
  }

  lemma {:induction false} ReachesGrows(unit: string, low: real, high: real, ts: seq<Threshold>)
    requires low <= high
    ensures Reaches(unit, low, ts) ==> Reaches(unit, high, ts)
  {
  }

  /** Deny by default: no classified ancestor and no stated tier for unknown domains means block. */
  lemma {:induction false} UnclassifiedIsBlocked(ctx: Context, p: Policy, now: int, auto: nat, cosign: nat)
    requires p.unknownDomainTier == None
    requires forall a :: a in p.domainTiers ==> !IsAncestor(a, ctx.domain)
    ensures Overall(ctx, p, now, auto, cosign) == Block
  {
    hide Sovereignty, Reversibility, Impact, Confidence, Evidence, RateLimits, Fallback, JoinAll, Nearest;
    NearestIsLongestAncestor(ctx.domain, p.domainTiers);
    OneBlockBlocks(Findings(ctx, p, now, auto, cosign), 1);
  }

  /** The domain's tier alone holds a decision: at least for co-signature, for escalation, or for good. */
  lemma {:induction false} TierHolds(ctx: Context, p: Policy, now: int, auto: nat, cosign: nat, tier: Tier)
    requires HasTier(p, ctx.domain, tier)
    ensures var v := Overall(ctx, p, now, auto, cosign);
      && (tier in p.cosignAtTiers ==> v != Allow)
      && (tier in p.escalateAtTiers ==> v == Escalate || v == Block)
      && (tier == Unacceptable ==> v == Block)
  {
    hide HasTier, Overall, ResidencyRefused, ImpactAmong, ConsensusMissing, Budgeted;
    VerdictIsExact(ctx, p, now, auto, cosign);
  }

  // ---------------------------------------------------------------------------
  // Where the early returns are not monotone
  // ---------------------------------------------------------------------------

  /** Gate 6 for the same context with data of this age. */
  function EvidenceAt(ctx: Context, p: Policy, ageMs: int): Verdict {
    Evidence(ctx.(lastRefreshMs := ageMs), p).verdict
  }

  /**
   * Ageing data can relax gate 6: past the age limit the missing consensus is no longer looked
   * at. It never does exactly when sources are short, or consensus is reached or not required.
   */
  lemma {:induction false} AgeingNeverRelaxesExactly(ctx: Context, p: Policy)
    ensures (forall a, b :: a <= b ==> Rank(EvidenceAt(ctx, p, a)) <= Rank(EvidenceAt(ctx, p, b)))
       <==> (ctx.sourceCount < p.minSourceCount || ctx.consensusReached || ctx.domain !in p.consensusDomains)
  {
    var a, b := p.maxDataAgeMs, p.maxDataAgeMs + 1;
    assert a <= b;
    assert EvidenceAt(ctx, p, b) == if ctx.sourceCount < p.minSourceCount then Escalate else AllowWithCosign;
    assert EvidenceAt(ctx, p, a) ==
      if ctx.sourceCount < p.minSourceCount then Escalate
      else if ctx.domain in p.consensusDomains && !ctx.consensusReached then Escalate else Allow;
  }

  /**
   * One more autonomous decision in the window can relax gate 8, from escalate to co-sign. It
   * does exactly when it uses up the autonomous budget while the co-sign budget is already spent.
   */
  lemma {:induction false} CountingRelaxesExactly(ctx: Context, p: Policy, now: int, auto: nat, cosign: nat)
    ensures Rank(RateLimits(ctx, p, now, auto + 1, cosign).verdict)
          < Rank(RateLimits(ctx, p, now, auto, cosign).verdict)
       <==> Charged(ctx, now) && auto + 1 == p.autonomousPerHour && cosign >= p.cosignPerHour
  {
  }

  // ---------------------------------------------------------------------------
  // The runtime bridge
  // ---------------------------------------------------------------------------

  /** What a runtime request says of itself. */
  datatype GovernanceInput = GovernanceInput(
    requestId: string,
    surface: string,
    taskType: string,
    confidence: real,
    sourceCount: int,
    evidenceAgeMs: Option<int>,
    hasSideEffects: bool,
    impact: Option<(string, real)>,
    priorApproval: Option<Approval>,
    fallbackAvailable: bool)

  /** Age given to an answer that rests on no retrieved evidence. */
  const PARAMETRIC_EVIDENCE_AGE_MS := 30 * 24 * 60 * 60 * 1000

  /** A request with side effects is operational and irreversible; any other is exempt and reversible. */
  function BuildDecisionContext(input: GovernanceInput): Context {
    var impact := if input.impact.Some? then input.impact.value
                  else ("other", if input.hasSideEffects then 1000.0 else 1.0);
    Context(input.requestId,
            "runtime." + input.surface + "." + input.taskType,
            MaxR(0.0, MinR(1.0, input.confidence)),
            !input.hasSideEffects,
            impact.0, impact.1, "eu", "EU", input.sourceCount,
            if input.evidenceAgeMs.Some? then input.evidenceAgeMs.value else PARAMETRIC_EVIDENCE_AGE_MS,
            input.sourceCount >= 2,
            Some(if input.hasSideEffects then Operational
                 else if input.surface == "query" then Conversational else Analytical),
            input.priorApproval, input.fallbackAvailable)
  }

  /** What the gates are told of a bridge request. */
  lemma {:induction false} BridgeContextIsExact(input: GovernanceInput)
    ensures var ctx := BuildDecisionContext(input);
      && ctx.decisionId == input.requestId && ctx.domain == "runtime." + input.surface + "." + input.taskType
      && 0.0 <= ctx.confidence <= 1.0 && (0.0 <= input.confidence <= 1.0 ==> ctx.confidence == input.confidence)
      && (ctx.reversible <==> !input.hasSideEffects)
      && (input.impact.Some? ==> input.impact == Some((ctx.impactUnit, ctx.impactValue)))
      && (input.impact.None? ==>
            ctx.impactUnit == "other" && ctx.impactValue == if input.hasSideEffects then 1000.0 else 1.0)
      && ctx.dataResidency == "eu" && ctx.subjectJurisdiction == "EU"
      && ctx.sourceCount == input.sourceCount && (ctx.consensusReached <==> input.sourceCount >= 2)
      && (input.evidenceAgeMs.Some? ==> input.evidenceAgeMs == Some(ctx.lastRefreshMs))
      && (input.evidenceAgeMs.None? ==> ctx.lastRefreshMs == 2_592_000_000)
      && (ctx.taskClass == Some(Operational) <==> input.hasSideEffects)
      && (ctx.taskClass == Some(Conversational) <==> !input.hasSideEffects && input.surface == "query")
      && ctx.priorApproval == input.priorApproval && ctx.fallbackAvailable == input.fallbackAvailable
  {
  }

  /** What a bridge request says of itself that keeps it from being allowed. */
  ghost predicate BridgeHeld(input: GovernanceInput, p: Policy) {
    || (input.hasSideEffects && p.irreversibleVerdict != Allow)
    || (input.evidenceAgeMs == None && p.maxDataAgeMs < 2_592_000_000)
    || (input.sourceCount < 2 && "runtime." + input.surface + "." + input.taskType in p.consensusDomains)
    || (input.confidence < p.minimumAutonomous && 0.0 < p.minimumAutonomous)
    || p.minimumAutonomous > 1.0
    || (input.hasSideEffects && input.impact == None && Threshold("other", 1000.0) in p.cosignThresholds)
    || "eu" !in p.allowedResidencies
  }

  lemma {:induction false} HeldBridgeRequestIsNotAllowed(
    input: GovernanceInput, p: Policy, now: int, auto: nat, cosign: nat)
    requires BridgeHeld(input, p)
    ensures Overall(BuildDecisionContext(input), p, now, auto, cosign) != Allow
  {
    hide Overall, HasTier, TierAmong, Budgeted;
    VerdictIsExact(BuildDecisionContext(input), p, now, auto, cosign);
  }

  /** One without side effects is reversible, and of small impact unless it says otherwise. */
  lemma {:induction false} TextIsHarmless(input: GovernanceInput, ts: seq<Threshold>)
    requires !input.hasSideEffects && input.impact == None
    ensures BuildDecisionContext(input).reversible
    ensures ImpactAmong(BuildDecisionContext(input), ts) ==> exists t :: t in ts && t.unit == "other" && t.value <= 1.0
  {
  }

  /** A request that only returns text is never charged to the budget. */
  lemma {:induction false} TextIsNotBudgeted(input: GovernanceInput, now: int)
    ensures Budgeted(BuildDecisionContext(input), now) ==> input.hasSideEffects
    ensures input.hasSideEffects && input.priorApproval == None ==> Budgeted(BuildDecisionContext(input), now)
  {
  }

  // ---------------------------------------------------------------------------
  // Runs
  // ---------------------------------------------------------------------------

  datatype Event =
    | Probe(at: int, ctx: Context)
      // evaluate, and nothing else
    | Execute(evalAt: int, recordAt: int, ctx: Context)
      // evaluate, then record at once if the verdict is allow: the decision loop
    | RecordCosigned(at: int, taskClass: Option<TaskClass>)
      // a co-signed execution charged to the window
    | Begin(at: int, id: nat, input: GovernanceInput)
      // the runtime bridge: evaluate, then work that others may overtake
    | Finish(at: int, id: nat)
      // that work is done: record the verdict it began with

  function Begins(e: Event): int {
    match e
    case Probe(at, _) => at
    case Execute(at, _, _) => at
    case RecordCosigned(at, _) => at
    case Begin(at, _, _) => at
    case Finish(at, _) => at
  }

  function Ends(e: Event): int {
    match e
    case Execute(_, at, _) => at
    case _ => Begins(e)
  }

  /** The evaluation an event makes, if it makes one: when, and of what. */
  function Question(e: Event): Option<(int, Context)> {
    match e
    case Probe(at, ctx) => Some((at, ctx))
    case Execute(at, _, ctx) => Some((at, ctx))
    case Begin(at, _, input) => Some((at, BuildDecisionContext(input)))
    case _ => None
  }

  /** What was ever recorded; `approved` notes a valid prior approval and is read by no gate. */
  datatype Logged = Logged(entry: Entry, approved: bool)

  /** Work in flight: the verdict it began with, to be recorded when it is done. */
  datatype Pending = Pending(verdict: Verdict, taskClass: Option<TaskClass>, approved: bool)

  /** `horizon` is the latest cutoff the window was pruned to. */
  datatype State = State(window: seq<Entry>, log: seq<Logged>, clock: int, horizon: int, pending: map<nat, Pending>)

  function Entries(log: seq<Logged>): (r: seq<Entry>)
    ensures |r| == |log|
  {
    if log == [] then [] else Entries(log[..|log| - 1]) + [log[|log| - 1].entry]
  }

  function Looked(st: State, ctx: Context, now: int): State {
    st.(window := WindowAfter(st.window, ctx, now), clock := now,
        horizon := if Charged(ctx, now) then now - HOUR_MS else st.horizon)
  }

  function Noted(st: State, verdict: Verdict, taskClass: Option<TaskClass>, now: int, approved: bool): State {
    var w := Recorded(st.window, verdict, taskClass, now);
    st.(window := w, clock := now,
        log := if |w| > |st.window| then st.log + [Logged(Entry(now, verdict), approved)] else st.log)
  }

  function Step(p: Policy, st: State, e: Event): State {
    match e
    case Probe(at, ctx) => Looked(st, ctx, at)
    case Execute(evalAt, recordAt, ctx) =>
      var st' := Looked(st, ctx, evalAt);
      if VerdictOn(st.window, ctx, p, evalAt) == Allow
      then Noted(st', Allow, ctx.taskClass, recordAt, HasValidPriorApproval(ctx, evalAt))
      else st'.(clock := recordAt)
    case RecordCosigned(at, taskClass) => Noted(st, AllowWithCosign, taskClass, at, true)
    case Begin(at, id, input) =>
      var ctx := BuildDecisionContext(input);
      var w := Pending(VerdictOn(st.window, ctx, p, at), ctx.taskClass, HasValidPriorApproval(ctx, at));
      Looked(st, ctx, at).(pending := st.pending[id := w])
    case Finish(at, id) =>
      if id in st.pending then
        var w := st.pending[id];
        Noted(st.(pending := st.pending - {id}), w.verdict, w.taskClass, at, w.approved)
      else st.(clock := at)
  }

  function Run(p: Policy, start: int, events: seq<Event>): State {
    if events == [] then State([], [], start, start - HOUR_MS, map[])
    else Step(p, Run(p, start, events[..|events| - 1]), events[|events| - 1])
  }

  /** The clock never runs backwards. */
  ghost predicate Ordered(start: int, events: seq<Event>) {
    && (forall i :: 0 <= i < |events| ==> start <= Begins(events[i]) <= Ends(events[i]))
    && (forall i, j :: 0 <= i < j < |events| ==> Ends(events[i]) <= Begins(events[j]))
  }

  ghost predicate Sorted(w: seq<Entry>) {
    forall i, j :: 0 <= i < j < |w| ==> w[i].ts <= w[j].ts
  }

  /** The window is the whole log, front-pruned, and the log is in time order. */
  ghost predicate WindowTracksLog(st: State) {
    && st.window == Prune(Entries(st.log), st.horizon)
    && st.horizon <= st.clock - HOUR_MS
    && Sorted(Entries(st.log))
    && forall i :: 0 <= i < |st.log| ==> Entries(st.log)[i].ts <= st.clock
  }

  lemma {:induction false} PruneSnoc(w: seq<Entry>, e: Entry, cutoff: int)
    requires e.ts >= cutoff
    ensures Prune(w + [e], cutoff) == Prune(w, cutoff) + [e]
  {
    if w != [] && w[0].ts < cutoff {
      assert (w + [e])[1..] == w[1..] + [e];
      PruneSnoc(w[1..], e, cutoff);
    }
  }

  lemma {:induction false} LookedTracks(st: State, ctx: Context, now: int)
    requires WindowTracksLog(st) && st.clock <= now
    ensures WindowTracksLog(Looked(st, ctx, now))
  {
    PruneTwice(Entries(st.log), st.horizon, now - HOUR_MS);
  }

  lemma {:induction false} NotedTracks(
    st: State, verdict: Verdict, taskClass: Option<TaskClass>, now: int, approved: bool)
    requires WindowTracksLog(st) && st.clock <= now
    ensures WindowTracksLog(Noted(st, verdict, taskClass, now, approved))
  {
    hide Prune, Sorted, Entries, WindowTracksLog, Noted;
    var l := Logged(Entry(now, verdict), approved);
    NotedIsOneMore(st, verdict, taskClass, now, approved);
    TrackedSnoc(st, l, now);
    TrackedLater(st, now);
  }

  /** Noting a decision adds it to the window and to the log, or to neither. */
  lemma {:induction false} NotedIsOneMore(
    st: State, verdict: Verdict, taskClass: Option<TaskClass>, now: int, approved: bool)
    ensures var e := Entry(now, verdict);
      || Noted(st, verdict, taskClass, now, approved)
         == st.(window := st.window + [e], log := st.log + [Logged(e, approved)], clock := now)
      || Noted(st, verdict, taskClass, now, approved) == st.(clock := now)
  {
  }

  lemma {:induction false} TrackedSnoc(st: State, l: Logged, now: int)
    requires WindowTracksLog(st) && st.clock <= now == l.entry.ts
    ensures WindowTracksLog(st.(window := st.window + [l.entry], log := st.log + [l], clock := now))
  {
    hide Prune, Sorted, Entries;
    EntriesSnoc(st.log, l);
    PruneSnoc(Entries(st.log), l.entry, st.horizon);
    SortedSnoc(Entries(st.log), l.entry);
  }

  lemma {:induction false} TrackedLater(st: State, now: int)
    requires WindowTracksLog(st) && st.clock <= now
    ensures WindowTracksLog(st.(clock := now))
  {
    hide Prune, Sorted, Entries;
  }

  lemma {:induction false} EntriesSnoc(log: seq<Logged>, l: Logged)
    ensures Entries(log + [l]) == Entries(log) + [l.entry]
  {
    assert (log + [l])[..|log|] == log;
  }

  lemma {:induction false} SortedSnoc(w: seq<Entry>, e: Entry)
    requires Sorted(w) && forall i :: 0 <= i < |w| ==> w[i].ts <= e.ts
    ensures Sorted(w + [e])
  {
  }

  lemma {:induction false} StepTracks(p: Policy, st: State, e: Event)
    requires WindowTracksLog(st) && st.clock <= Begins(e) <= Ends(e)
    ensures WindowTracksLog(Step(p, st, e)) && Step(p, st, e).clock == Ends(e)
  {
    match e
    case Probe(at, ctx) => LookedTracks(st, ctx, at);
    case Execute(evalAt, recordAt, ctx) =>
      LookedTracks(st, ctx, evalAt);
      NotedTracks(Looked(st, ctx, evalAt), Allow, ctx.taskClass, recordAt, HasValidPriorApproval(ctx, evalAt));
    case RecordCosigned(at, taskClass) => NotedTracks(st, AllowWithCosign, taskClass, at, true);
    case Begin(at, id, input) => LookedTracks(st, BuildDecisionContext(input), at);
    case Finish(at, id) =>
      if id in st.pending {
        var w := st.pending[id];
        NotedTracks(st.(pending := st.pending - {id}), w.verdict, w.taskClass, at, w.approved);
      }
  }

  lemma {:induction false} RunTracks(p: Policy, start: int, events: seq<Event>)
    requires Ordered(start, events)
    ensures WindowTracksLog(Run(p, start, events))
    ensures Run(p, start, events).clock == if events == [] then start else Ends(events[|events| - 1])
  {
    if events != [] {
      var n := |events| - 1;
      RunTracks(p, start, events[..n]);
      StepTracks(p, Run(p, start, events[..n]), events[n]);
    }
  }

  // ---------------------------------------------------------------------------
  // Front-popping a sorted queue is filtering it
  // ---------------------------------------------------------------------------

  /** Recorded decisions with this verdict at or after `cutoff`, over everything ever recorded. */
  function CountSince(w: seq<Entry>, v: Verdict, cutoff: int): nat {
    if w == [] then 0
    else
      CountSince(w[..|w| - 1], v, cutoff) + if w[|w| - 1].verdict == v && w[|w| - 1].ts >= cutoff then 1 else 0
  }

  lemma {:induction false} CountSinceFront(w: seq<Entry>, v: Verdict, cutoff: int)
    requires w != [] && w[0].ts < cutoff
    ensures CountSince(w, v, cutoff) == CountSince(w[1..], v, cutoff)
  {
    if |w| > 1 {
      var n := |w| - 1;
      assert w[1..][..n - 1] == w[..n][1..];
      CountSinceFront(w[..n], v, cutoff);
    }
  }

  lemma {:induction false} CountSinceAll(w: seq<Entry>, v: Verdict, cutoff: int)
    requires forall i :: 0 <= i < |w| ==> w[i].ts >= cutoff
    ensures CountSince(w, v, cutoff) == CountOf(w, v)
  {
    if w != [] {
      CountSinceAll(w[..|w| - 1], v, cutoff);
    }
  }

  lemma {:induction false} PrunedCount(w: seq<Entry>, v: Verdict, cutoff: int)
    requires Sorted(w)
    ensures CountOf(Prune(w, cutoff), v) == CountSince(w, v, cutoff)
  {
    if w != [] && w[0].ts < cutoff {
      CountSinceFront(w, v, cutoff);
      PrunedCount(w[1..], v, cutoff);
    } else {
      CountSinceAll(w, v, cutoff);
    }
  }

  /** What the verdict is as a function of the log alone. */
  function VerdictByLog(log: seq<Logged>, ctx: Context, p: Policy, now: int): Verdict {
    if Charged(ctx, now)
    then Overall(ctx, p, now, CountSince(Entries(log), Allow, now - HOUR_MS),
                 CountSince(Entries(log), AllowWithCosign, now - HOUR_MS))
    else Overall(ctx, p, now, 0, 0)
  }

  /** An evaluation reads the log and nothing else: earlier evaluations leave no trace in it. */
  lemma {:induction false} EvaluateReadsOnlyTheLog(st: State, ctx: Context, p: Policy, now: int)
    requires WindowTracksLog(st) && st.clock <= now
    ensures VerdictOn(st.window, ctx, p, now) == VerdictByLog(st.log, ctx, p, now)
  {
    hide Overall, Prune, CountSince, CountOf, Sorted;
    if Charged(ctx, now) {
      var w := WindowAfter(st.window, ctx, now);
      PruneTwice(Entries(st.log), st.horizon, now - HOUR_MS);
      assert w == Prune(Entries(st.log), now - HOUR_MS);
      PrunedCount(Entries(st.log), Allow, now - HOUR_MS);
      PrunedCount(Entries(st.log), AllowWithCosign, now - HOUR_MS);
    } else {
      UnchargedIgnoresCounts(ctx, p, now, CountOf(st.window, Allow), CountOf(st.window, AllowWithCosign));
    }
  }

  lemma {:induction false} UnchargedIgnoresCounts(ctx: Context, p: Policy, now: int, auto: nat, cosign: nat)
    requires !Charged(ctx, now)
    ensures Overall(ctx, p, now, auto, cosign) == Overall(ctx, p, now, 0, 0)
  {
    assert Findings(ctx, p, now, auto, cosign) == Findings(ctx, p, now, 0, 0);
  }

  // ---------------------------------------------------------------------------
  // Evaluation is observationally pure
  // ---------------------------------------------------------------------------

  /** The same run with every bare evaluation deleted. */
  function Erase(events: seq<Event>): seq<Event> {
    if events == [] then []
    else Erase(events[..|events| - 1]) + if events[|events| - 1].Probe? then [] else [events[|events| - 1]]
  }

  /** The verdict an event's evaluation gives in state `st`. */
  function Answer(p: Policy, st: State, e: Event): Verdict
    requires Question(e).Some?
  {
    VerdictOn(st.window, Question(e).value.1, p, Question(e).value.0)
  }

  /** The verdicts that were acted on, in order. */
  function Outcomes(p: Policy, start: int, events: seq<Event>): seq<Verdict> {
    if events == [] then []
    else
      var n := |events| - 1;
      var e := events[n];
      Outcomes(p, start, events[..n]) +
      if e.Execute? || e.Begin? then [Answer(p, Run(p, start, events[..n]), e)] else []
  }

  /** The same log and the same work in flight; window, horizon and clock may differ. */
  predicate Alike(s: State, t: State) {
    s.log == t.log && s.pending == t.pending
  }

  lemma {:induction false} EraseMembers(events: seq<Event>)
    ensures forall e :: e in Erase(events) ==> e in events
  {
    if events != [] {
      var n := |events| - 1;
      EraseMembers(events[..n]);
      assert events == events[..n] + [events[n]];
    }
  }

  lemma {:induction false} OrderedSnoc(start: int, events: seq<Event>, e: Event)
    requires Ordered(start, events) && start <= Begins(e) <= Ends(e)
    requires forall i :: 0 <= i < |events| ==> Ends(events[i]) <= Begins(e)
    ensures Ordered(start, events + [e])
  {
    hide Ends, Begins;
  }

  lemma {:induction false} OrderedPrefix(start: int, events: seq<Event>)
    requires Ordered(start, events) && events != []
    ensures var last := events[|events| - 1];
      && Ordered(start, events[..|events| - 1]) && start <= Begins(last) <= Ends(last)
      && forall e :: e in events[..|events| - 1] ==> Ends(e) <= Begins(last)
  {
    hide Ends, Begins;
  }

  lemma {:induction false} EraseKeepsOrder(start: int, events: seq<Event>)
    requires Ordered(start, events)
    ensures Ordered(start, Erase(events))
  {
    hide Ends, Begins, Ordered;
    if events != [] {
      var front, last := events[..|events| - 1], events[|events| - 1];
      OrderedPrefix(start, events);
      EraseKeepsOrder(start, front);
      EraseMembers(front);
      OrderedSnoc(start, Erase(front), last);
      assert Erase(front) + [] == Erase(front);
    } else {
      assert Erase(events) == events;
    }
  }

  /** From two states with one log, a step records the same and decides the same. */
  lemma {:induction false} StepReadsOnlyTheLog(p: Policy, s: State, t: State, e: Event)
    requires WindowTracksLog(s) && WindowTracksLog(t) && s.log == t.log && s.pending == t.pending
    requires s.clock <= Begins(e) && t.clock <= Begins(e)
    ensures Question(e).Some? ==> Answer(p, s, e) == Answer(p, t, e)
    ensures Step(p, s, e).log == Step(p, t, e).log && Step(p, s, e).pending == Step(p, t, e).pending
  {
    hide VerdictOn, VerdictByLog, WindowTracksLog, HasValidPriorApproval, WindowAfter;
    if Question(e).Some? {
      EvaluateReadsOnlyTheLog(s, Question(e).value.1, p, Question(e).value.0);
      EvaluateReadsOnlyTheLog(t, Question(e).value.1, p, Question(e).value.0);
    }
  }

  /**
   * Deleting bare evaluations from a run changes neither what is recorded or in flight nor any
   * verdict that was acted on.
   */
  lemma {:induction false} ProbesChangeNothing(p: Policy, start: int, events: seq<Event>)
    requires Ordered(start, events)
    ensures Alike(Run(p, start, Erase(events)), Run(p, start, events))
    ensures Outcomes(p, start, Erase(events)) == Outcomes(p, start, events)
  {
    if events != [] {
      var front, e := events[..|events| - 1], events[|events| - 1];
      assert front + [e] == events;
      ProbesChangeNothing(p, start, front);
      ErasedStep(p, start, front, e);
    }
  }

  lemma {:induction false} ErasedStep(p: Policy, start: int, front: seq<Event>, e: Event)
    requires Ordered(start, front + [e])
    requires Alike(Run(p, start, Erase(front)), Run(p, start, front))
    requires Outcomes(p, start, Erase(front)) == Outcomes(p, start, front)
    ensures Alike(Run(p, start, Erase(front + [e])), Run(p, start, front + [e]))
    ensures Outcomes(p, start, Erase(front + [e])) == Outcomes(p, start, front + [e])
  {
    RunSnoc(p, start, front, e);
    assert (front + [e])[..|front|] == front;
    if e.Probe? {
      assert Erase(front + [e]) == Erase(front);
    } else {
      assert Erase(front + [e]) == Erase(front) + [e];
      ErasedClock(p, start, front, e);
      StepReadsOnlyTheLog(p, Run(p, start, front), Run(p, start, Erase(front)), e);
      RunSnoc(p, start, Erase(front), e);
    }
  }

  lemma {:induction false} RunSnoc(p: Policy, start: int, events: seq<Event>, e: Event)
    ensures Run(p, start, events + [e]) == Step(p, Run(p, start, events), e)
    ensures Outcomes(p, start, events + [e]) == Outcomes(p, start, events) +
      if e.Execute? || e.Begin? then [Answer(p, Run(p, start, events), e)] else []
  {
    assert (events + [e])[..|events|] == events;
  }

  lemma {:induction false} ErasedClock(p: Policy, start: int, front: seq<Event>, e: Event)
    requires Ordered(start, front + [e])
    ensures Run(p, start, front).clock <= Begins(e) && Run(p, start, Erase(front)).clock <= Begins(e)
    ensures WindowTracksLog(Run(p, start, front)) && WindowTracksLog(Run(p, start, Erase(front)))
  {
    assert forall i :: 0 <= i < |front| ==> (front + [e])[i] == front[i];
    assert (front + [e])[|front|] == e;
    assert Ordered(start, front);
    RunTracks(p, start, front);
    EraseKeepsOrder(start, front);
    EraseMembers(front);
    RunTracks(p, start, Erase(front));
    if Erase(front) != [] {
      var last := Erase(front)[|Erase(front)| - 1];
      assert last in front;
    }
  }

  /**
   * So any two runs that execute and record the same things, with evaluations added or deleted
   * anywhere, decide alike.
   */
  lemma {:induction false} EvaluateIsObservationallyPure(p: Policy, start: int, events: seq<Event>, others: seq<Event>)
    requires Ordered(start, events) && Ordered(start, others) && Erase(events) == Erase(others)
    ensures Outcomes(p, start, events) == Outcomes(p, start, others)
    ensures Alike(Run(p, start, events), Run(p, start, others))
  {
    ProbesChangeNothing(p, start, events);
    ProbesChangeNothing(p, start, others);
  }

  lemma {:induction false} RunUpTo(p: Policy, start: int, events: seq<Event>, i: nat)
    requires Ordered(start, events) && i < |events|
    ensures Ordered(start, events[..i])
    ensures WindowTracksLog(Run(p, start, events[..i])) && Run(p, start, events[..i]).clock <= Begins(events[i])
  {
    RunTracks(p, start, events[..i]);
  }

  /**
   * And no evaluation sees the others: in two runs that executed and recorded alike so far, the
   * same evaluation, bare or acted on, gives the same verdict, whatever evaluations were added
   * or deleted before it.
   */
  lemma {:induction false} EveryEvaluationIsUndisturbed(p: Policy, start: int, events: seq<Event>, i: nat,
                                                        others: seq<Event>, j: nat)
    requires Ordered(start, events) && Ordered(start, others) && i < |events| && j < |others|
    requires Erase(events[..i]) == Erase(others[..j])
    requires Question(events[i]).Some? && Question(events[i]) == Question(others[j])
    ensures Answer(p, Run(p, start, events[..i]), events[i]) == Answer(p, Run(p, start, others[..j]), others[j])
  {
    hide Run, WindowTracksLog, VerdictOn, VerdictByLog, Erase;
    RunUpTo(p, start, events, i);
    RunUpTo(p, start, others, j);
    EvaluateIsObservationallyPure(p, start, events[..i], others[..j]);
    var q := Question(events[i]).value;
    EvaluateReadsOnlyTheLog(Run(p, start, events[..i]), q.1, p, q.0);
    EvaluateReadsOnlyTheLog(Run(p, start, others[..j]), q.1, p, q.0);
  }

  /** The end of the co-sign loop: with a valid approval the verdict does not depend on the window at all. */
  lemma {:induction false} ApprovedIgnoresWindow(ctx: Context, p: Policy, now: int, w: seq<Entry>)
    requires HasValidPriorApproval(ctx, now)
    ensures VerdictOn(w, ctx, p, now) == Overall(ctx, p, now, 0, 0)
  {
    UnchargedIgnoresCounts(ctx, p, now, CountOf(w, Allow), CountOf(w, AllowWithCosign));
  }

  // ---------------------------------------------------------------------------
  // The hourly guarantee
  // ---------------------------------------------------------------------------

  /** Autonomous decisions, recorded without a valid approval, in the closed hour that starts at `from`. */
  function UnapprovedIn(log: seq<Logged>, from: int): nat {
    if log == [] then 0
    else
      var l := log[|log| - 1];
      UnapprovedIn(log[..|log| - 1], from) +
      if l.entry.verdict == Allow && !l.approved && from <= l.entry.ts <= from + HOUR_MS then 1 else 0
  }

  lemma {:induction false} UnapprovedAtMostAllows(log: seq<Logged>, from: int, cutoff: int)
    requires cutoff <= from
    ensures UnapprovedIn(log, from) <= CountSince(Entries(log), Allow, cutoff)
  {
    if log != [] {
      UnapprovedAtMostAllows(log[..|log| - 1], from, cutoff);
      assert Entries(log)[..|log| - 1] == Entries(log[..|log| - 1]);
    }
  }

  lemma {:induction false} AllowNeedsRoom(ctx: Context, p: Policy, now: int, auto: nat, cosign: nat)
    requires Charged(ctx, now) && Overall(ctx, p, now, auto, cosign) == Allow
    ensures auto < p.autonomousPerHour
  {
    var fs := Findings(ctx, p, now, auto, cosign);
    JoinAllIsJoin(fs);
    assert fs[7] in fs;
  }

  /** Work in flight that would count against the hourly budget when recorded now. */
  function Waiting(st: State): set<nat> {
    set id | id in st.pending && Counts(st.pending[id])
  }

  predicate Counts(w: Pending) {
    w.verdict == Allow && !w.approved && (w.taskClass == None || w.taskClass == Some(Operational))
  }

  /** What an hour can hold with at most `k` executions between evaluation and recording at a time. */
  function HourlyBound(limit: int, k: nat): int {
    if limit <= 0 then 0 else limit - 1 + k
  }

  /**
   * The bound holds for the hour from `from`, and while that hour lasts it also covers what is
   * still in flight.
   */
  ghost predicate WithinBound(st: State, limit: int, k: nat, from: int) {
    && UnapprovedIn(st.log, from) <= HourlyBound(limit, k)
    && (st.clock <= from + HOUR_MS ==> UnapprovedIn(st.log, from) + |Waiting(st)| <= HourlyBound(limit, k))
  }

  /** At no time are more than `k` executions that count between evaluation and recording. */
  ghost predicate AtMostInFlight(p: Policy, start: int, events: seq<Event>, k: nat) {
    forall i :: 0 <= i < |events| ==> InFlightAt(p, Run(p, start, events[..i]), events[i]) <= k
  }

  function InFlightAt(p: Policy, st: State, e: Event): nat {
    |Waiting(Step(p, st, e))| + if e.Execute? then 1 else 0
  }

  lemma {:induction false} FewerMembers(s: set<nat>, t: set<nat>)
    requires s <= t
    ensures |s| <= |t|
  {
    assert |t - s| == |t| - |s|;
  }

  lemma {:induction false} UnapprovedSnoc(log: seq<Logged>, l: Logged, from: int)
    ensures UnapprovedIn(log + [l], from) == UnapprovedIn(log, from)
      + if l.entry.verdict == Allow && !l.approved && from <= l.entry.ts <= from + HOUR_MS then 1 else 0
  {
    assert (log + [l])[..|log|] == log;
  }

  /** What a recording adds to the hour: one, if it counts and falls into it. */
  lemma {:induction false} NotedAdds(st: State, w: Pending, now: int, from: int)
    ensures UnapprovedIn(Noted(st, w.verdict, w.taskClass, now, w.approved).log, from)
      == UnapprovedIn(st.log, from) + if Counts(w) && from <= now <= from + HOUR_MS then 1 else 0
  {
    UnapprovedSnoc(st.log, Logged(Entry(now, w.verdict), w.approved), from);
  }

  /** An allow that would count was given with room in the budget, so with room in the hour. */
  lemma {:induction false} AllowFindsRoom(p: Policy, st: State, ctx: Context, now: int, from: int)
    requires WindowTracksLog(st) && st.clock <= now <= from + HOUR_MS
    requires VerdictOn(st.window, ctx, p, now) == Allow && Charged(ctx, now)
    ensures UnapprovedIn(st.log, from) <= p.autonomousPerHour - 1
  {
    hide VerdictOn, WindowTracksLog, Overall, UnapprovedIn, CountSince;
    EvaluateReadsOnlyTheLog(st, ctx, p, now);
    AllowNeedsRoom(ctx, p, now, CountSince(Entries(st.log), Allow, now - HOUR_MS),
                   CountSince(Entries(st.log), AllowWithCosign, now - HOUR_MS));
    UnapprovedAtMostAllows(st.log, from, now - HOUR_MS);
  }

  lemma {:induction false} BeginKeepsBound(p: Policy, st: State, e: Event, k: nat, from: int)
    requires e.Begin? && WindowTracksLog(st) && st.clock <= e.at
    requires InFlightAt(p, st, e) <= k && WithinBound(st, p.autonomousPerHour, k, from)
    ensures WithinBound(Step(p, st, e), p.autonomousPerHour, k, from)
  {
    hide VerdictOn, WindowTracksLog, UnapprovedIn, WindowAfter, HasValidPriorApproval;
    var st' := Step(p, st, e);
    if Counts(st'.pending[e.id]) {
      if e.at <= from + HOUR_MS {
        AllowFindsRoom(p, st, BuildDecisionContext(e.input), e.at, from);
      }
    } else {
      FewerMembers(Waiting(st'), Waiting(st));
    }
  }

  lemma {:induction false} FinishKeepsBound(p: Policy, st: State, e: Event, k: nat, from: int)
    requires e.Finish? && st.clock <= e.at && WithinBound(st, p.autonomousPerHour, k, from)
    ensures WithinBound(Step(p, st, e), p.autonomousPerHour, k, from)
  {
    hide UnapprovedIn;
    if e.id in st.pending {
      var w := st.pending[e.id];
      NotedAdds(st.(pending := st.pending - {e.id}), w, e.at, from);
      assert Waiting(Step(p, st, e)) == Waiting(st) - {e.id};
      assert e.id in Waiting(st) <==> Counts(w);
    }
  }

  lemma {:induction false} ExecuteKeepsBound(p: Policy, st: State, e: Event, k: nat, from: int)
    requires e.Execute? && WindowTracksLog(st) && st.clock <= e.evalAt <= e.recordAt
    requires InFlightAt(p, st, e) <= k && WithinBound(st, p.autonomousPerHour, k, from)
    ensures WithinBound(Step(p, st, e), p.autonomousPerHour, k, from)
  {
    hide VerdictOn, WindowTracksLog, UnapprovedIn, WindowAfter;
    var st' := Step(p, st, e);
    assert Waiting(st') == Waiting(st);
    if VerdictOn(st.window, e.ctx, p, e.evalAt) == Allow {
      var w := Pending(Allow, e.ctx.taskClass, HasValidPriorApproval(e.ctx, e.evalAt));
      NotedAdds(Looked(st, e.ctx, e.evalAt), w, e.recordAt, from);
      if Counts(w) && e.evalAt <= from + HOUR_MS {
        AllowFindsRoom(p, st, e.ctx, e.evalAt, from);
      }
    }
  }

  lemma {:induction false} StepKeepsBound(p: Policy, st: State, e: Event, k: nat, from: int)
    requires WindowTracksLog(st) && st.clock <= Begins(e) <= Ends(e)
    requires InFlightAt(p, st, e) <= k && WithinBound(st, p.autonomousPerHour, k, from)
    ensures WithinBound(Step(p, st, e), p.autonomousPerHour, k, from)
  {
    hide VerdictOn, WindowTracksLog, UnapprovedIn, WindowAfter;
    match e
    case Probe(_, _) => assert Waiting(Step(p, st, e)) == Waiting(st);
    case Execute(_, _, _) => ExecuteKeepsBound(p, st, e, k, from);
    case RecordCosigned(at, taskClass) =>
      NotedAdds(st, Pending(AllowWithCosign, taskClass, true), at, from);
      assert Waiting(Step(p, st, e)) == Waiting(st);
    case Begin(_, _, _) => BeginKeepsBound(p, st, e, k, from);
    case Finish(_, _) => FinishKeepsBound(p, st, e, k, from);
  }

  lemma {:induction false} InFlightPrefix(p: Policy, start: int, events: seq<Event>, k: nat)
    requires events != [] && AtMostInFlight(p, start, events, k)
    ensures AtMostInFlight(p, start, events[..|events| - 1], k)
    ensures InFlightAt(p, Run(p, start, events[..|events| - 1]), events[|events| - 1]) <= k
  {
    hide Run, InFlightAt;
    assert forall i :: 0 <= i < |events| - 1 ==> events[..|events| - 1][..i] == events[..i];
  }

  lemma {:induction false} RunKeepsBound(p: Policy, start: int, events: seq<Event>, k: nat, from: int)
    requires Ordered(start, events) && AtMostInFlight(p, start, events, k)
    ensures WithinBound(Run(p, start, events), p.autonomousPerHour, k, from)
  {
    hide WithinBound, Step, InFlightAt, AtMostInFlight, Begins, Ends;
    if events == [] {
      StartsWithinBound(p, start, k, from);
    } else {
      var n := |events| - 1;
      InFlightPrefix(p, start, events, k);
      RunKeepsBound(p, start, events[..n], k, from);
      RunTracks(p, start, events[..n]);
      StepKeepsBound(p, Run(p, start, events[..n]), events[n], k, from);
    }
  }

  lemma {:induction false} StartsWithinBound(p: Policy, start: int, k: nat, from: int)
    ensures WithinBound(Run(p, start, []), p.autonomousPerHour, k, from)
  {
    assert Waiting(Run(p, start, [])) == {};
  }

  /**
   * Over every run with a clock that does not go back and at most `k` executions that count at
   * a time between evaluation and recording, no closed 60-minute window holds more than
   * `autonomous_per_hour + k - 1` recorded allows without a valid prior approval.
   */
  lemma {:induction false} HourlyLimitInFlight(p: Policy, start: int, events: seq<Event>, k: nat, from: int)
    requires Ordered(start, events) && AtMostInFlight(p, start, events, k)
    ensures UnapprovedIn(Run(p, start, events).log, from) <= HourlyBound(p.autonomousPerHour, k)
  {
    RunKeepsBound(p, start, events, k, from);
  }

  /** Recording follows evaluation at once, as in the decision loop. */
  predicate RecordsAtOnce(events: seq<Event>) {
    forall i :: 0 <= i < |events| ==> !events[i].Begin?
  }

  lemma {:induction false} NothingInFlight(p: Policy, start: int, events: seq<Event>)
    requires RecordsAtOnce(events)
    ensures Run(p, start, events).pending == map[]
  {
    hide VerdictOn, WindowAfter;
    if events != [] {
      NothingInFlight(p, start, events[..|events| - 1]);
    }
  }

  /**
   * So when each allow is recorded right after it was given, no closed 60-minute window holds
   * more than `autonomous_per_hour` recorded allows without a valid prior approval.
   */
  lemma {:induction false} HourlyLimitHolds(p: Policy, start: int, events: seq<Event>, from: int)
    requires Ordered(start, events) && RecordsAtOnce(events)
    ensures UnapprovedIn(Run(p, start, events).log, from) <= Max(p.autonomousPerHour, 0)
  {
    forall i | 0 <= i < |events|
      ensures InFlightAt(p, Run(p, start, events[..i]), events[i]) <= 1
    {
      NothingInFlight(p, start, events[..i]);
      NothingInFlight(p, start, events[..i + 1]);
      assert Waiting(Run(p, start, events[..i + 1])) == {};
      assert events[..i + 1][..i] == events[..i];
    }
    HourlyLimitInFlight(p, start, events, 1, from);
  }

  // ---------------------------------------------------------------------------
  // The bound is attained
  // ---------------------------------------------------------------------------

  /** A request that would be charged, and is allowed while the window is empty. */
  ghost predicate MayCount(p: Policy, input: GovernanceInput, t: int) {
    Charged(BuildDecisionContext(input), t) && Overall(BuildDecisionContext(input), p, t, 0, 0) == Allow
  }

  /** Being allowed needs an empty window at most: with room in the budget the counts do not matter. */
  lemma {:induction false} RoomIsEnough(ctx: Context, p: Policy, now: int, auto: nat, cosign: nat)
    requires Charged(ctx, now)
    ensures Overall(ctx, p, now, auto, cosign) == Allow <==>
      Overall(ctx, p, now, 0, 0) == Allow && auto < p.autonomousPerHour && cosign < p.cosignPerHour
  {
    hide Charged;
    AllowedExactly(ctx, p, now, auto, cosign);
    AllowedExactly(ctx, p, now, 0, 0);
  }

  lemma {:induction false} AllowedExactly(ctx: Context, p: Policy, now: int, auto: nat, cosign: nat)
    ensures Overall(ctx, p, now, auto, cosign) == Allow <==>
      && RateLimits(ctx, p, now, auto, cosign).verdict == Allow
      && forall i :: 0 <= i < 9 && i != 7 ==> Findings(ctx, p, now, 0, 0)[i].verdict == Allow
  {
    hide Sovereignty, RiskTier, Reversibility, Impact, Confidence, Evidence, RateLimits, Fallback, JoinAll;
    var fs := Findings(ctx, p, now, auto, cosign);
    JoinAllIsJoin(fs);
    assert forall i :: 0 <= i < 9 && i != 7 ==> fs[i] == Findings(ctx, p, now, 0, 0)[i];
    assert forall i :: 0 <= i < 9 ==> fs[i] in fs;
    if RateLimits(ctx, p, now, auto, cosign).verdict == Allow
       && forall i :: 0 <= i < 9 && i != 7 ==> Findings(ctx, p, now, 0, 0)[i].verdict == Allow {
      assert forall f :: f in fs ==> f.verdict == Allow;
    }
  }

  /** After `n` autonomous decisions recorded at `t`, and nothing else. */
  ghost predicate Filled(st: State, t: int, n: nat) {
    && WindowTracksLog(st) && st.clock <= t && |st.log| == n
    && forall i :: 0 <= i < n ==> st.log[i] == Logged(Entry(t, Allow), false)
  }

  lemma {:induction false} FilledCounts(log: seq<Logged>, t: int)
    requires forall i :: 0 <= i < |log| ==> log[i] == Logged(Entry(t, Allow), false)
    ensures CountSince(Entries(log), Allow, t - HOUR_MS) == |log|
    ensures CountSince(Entries(log), AllowWithCosign, t - HOUR_MS) == 0
    ensures UnapprovedIn(log, t) == |log|
  {
    if log != [] {
      FilledCounts(log[..|log| - 1], t);
      assert Entries(log)[..|log| - 1] == Entries(log[..|log| - 1]);
    }
  }

  /** With room left, one more request that may count is allowed. */
  lemma {:induction false} FilledAllows(p: Policy, st: State, input: GovernanceInput, t: int, n: nat)
    requires MayCount(p, input, t) && Filled(st, t, n) && n < p.autonomousPerHour
    ensures VerdictOn(st.window, BuildDecisionContext(input), p, t) == Allow
  {
    hide VerdictOn, WindowTracksLog, Overall, CountSince, BuildDecisionContext;
    var ctx := BuildDecisionContext(input);
    EvaluateReadsOnlyTheLog(st, ctx, p, t);
    FilledCounts(st.log, t);
    RoomIsEnough(ctx, p, t, 0, 0);
    RoomIsEnough(ctx, p, t, n, 0);
  }

  function ExecuteAll(t: int, input: GovernanceInput, n: nat): seq<Event> {
    if n == 0 then [] else ExecuteAll(t, input, n - 1) + [Execute(t, t, BuildDecisionContext(input))]
  }

  function BeginAll(t: int, input: GovernanceInput, k: nat): seq<Event> {
    if k == 0 then [] else BeginAll(t, input, k - 1) + [Begin(t, k - 1, input)]
  }

  function FinishAll(t: int, k: nat): seq<Event> {
    if k == 0 then [] else FinishAll(t, k - 1) + [Finish(t, k - 1)]
  }

  /** Fill the budget but for one, begin `k` executions, and record them all. */
  function Overlap(t: int, input: GovernanceInput, n: nat, k: nat): seq<Event> {
    ExecuteAll(t, input, n) + BeginAll(t, input, k) + FinishAll(t, k)
  }

  /** One more of them, allowed, leaves one more entry. */
  lemma {:induction false} ExecuteFills(p: Policy, st: State, ctx: Context, t: int, n: nat)
    requires Filled(st, t, n) && VerdictOn(st.window, ctx, p, t) == Allow && Charged(ctx, t)
    ensures Filled(Step(p, st, Execute(t, t, ctx)), t, n + 1)
    ensures Step(p, st, Execute(t, t, ctx)).pending == st.pending
  {
    hide VerdictOn, WindowTracksLog, WindowAfter, HasValidPriorApproval;
    StepTracks(p, st, Execute(t, t, ctx));
  }

  lemma {:induction false} AllExecuted(p: Policy, t: int, input: GovernanceInput, n: nat)
    requires MayCount(p, input, t) && n < p.autonomousPerHour
    ensures Filled(Run(p, t, ExecuteAll(t, input, n)), t, n)
    ensures Run(p, t, ExecuteAll(t, input, n)).pending == map[]
  {
    hide VerdictOn, BuildDecisionContext, Filled, Step;
    hide Overall, Charged;
    if n == 0 {
      StartsTracked(p, t);
    } else {
      var events, ctx := ExecuteAll(t, input, n - 1), BuildDecisionContext(input);
      var st := Run(p, t, events);
      AllExecuted(p, t, input, n - 1);
      FilledAllows(p, st, input, t, n - 1);
      ExecuteFills(p, st, ctx, t, n - 1);
      RunSnoc(p, t, events, Execute(t, t, ctx));
    }
  }

  lemma {:induction false} StartsTracked(p: Policy, t: int)
    ensures Filled(Run(p, t, []), t, 0) && Run(p, t, []).pending == map[]
  {
  }

  /** The ids from `m` up to `k` stand for executions that count. */
  ghost predicate Counting(st: State, m: nat, k: nat) {
    forall id :: m <= id < k ==> id in st.pending && Counts(st.pending[id])
  }

  /**
   * Beginning one more allowed request changes nothing that is recorded, and one more id stands
   * for work that counts.
   */
  lemma {:induction false} BeginCounts(p: Policy, st: State, input: GovernanceInput, t: int, n: nat, k: nat)
    requires Filled(st, t, n) && Counting(st, 0, k)
    requires VerdictOn(st.window, BuildDecisionContext(input), p, t) == Allow && Charged(BuildDecisionContext(input), t)
    ensures Filled(Step(p, st, Begin(t, k, input)), t, n) && Counting(Step(p, st, Begin(t, k, input)), 0, k + 1)
  {
    hide VerdictOn, WindowTracksLog, WindowAfter, BuildDecisionContext, HasValidPriorApproval, Charged;
    StepTracks(p, st, Begin(t, k, input));
    OperationalCounts(input, t);
  }

  lemma {:induction false} AllBegun(p: Policy, t: int, input: GovernanceInput, n: nat, k: nat)
    requires MayCount(p, input, t) && n < p.autonomousPerHour
    ensures var st := Run(p, t, ExecuteAll(t, input, n) + BeginAll(t, input, k));
      Filled(st, t, n) && Counting(st, 0, k)
  {
    hide VerdictOn, Overall, BuildDecisionContext, Filled, Counting, Charged, Run, Step;
    if k == 0 {
      AllExecuted(p, t, input, n);
      assert ExecuteAll(t, input, n) + BeginAll(t, input, 0) == ExecuteAll(t, input, n);
      NoneToCount(Run(p, t, ExecuteAll(t, input, n)));
    } else {
      var events := ExecuteAll(t, input, n) + BeginAll(t, input, k - 1);
      AllBegun(p, t, input, n, k - 1);
      FilledAllows(p, Run(p, t, events), input, t, n);
      BeginCounts(p, Run(p, t, events), input, t, n, k - 1);
      assert ExecuteAll(t, input, n) + BeginAll(t, input, k) == events + [Begin(t, k - 1, input)];
      RunSnoc(p, t, events, Begin(t, k - 1, input));
    }
  }

  lemma {:induction false} NoneToCount(st: State)
    ensures Counting(st, 0, 0)
  {
  }

  /** A charged bridge request is operational and not approved, so its allow counts. */
  lemma {:induction false} OperationalCounts(input: GovernanceInput, t: int)
    ensures var ctx := BuildDecisionContext(input);
      Charged(ctx, t) <==> Counts(Pending(Allow, ctx.taskClass, HasValidPriorApproval(ctx, t)))
  {
    hide HasValidPriorApproval;
  }

  lemma {:induction false} FinishAdds(p: Policy, st: State, t: int, m: nat, k: nat)
    requires m < k && Counting(st, m, k)
    ensures UnapprovedIn(Step(p, st, Finish(t, m)).log, t) == UnapprovedIn(st.log, t) + 1
    ensures Counting(Step(p, st, Finish(t, m)), m + 1, k)
  {
    hide UnapprovedIn;
    NotedAdds(st.(pending := st.pending - {m}), st.pending[m], t, t);
  }

  lemma {:induction false} AllFinished(p: Policy, t: int, input: GovernanceInput, n: nat, k: nat, m: nat)
    requires MayCount(p, input, t) && n < p.autonomousPerHour && m <= k
    ensures var st := Run(p, t, ExecuteAll(t, input, n) + BeginAll(t, input, k) + FinishAll(t, m));
      UnapprovedIn(st.log, t) == n + m && Counting(st, m, k)
  {
    hide Overall, UnapprovedIn, BuildDecisionContext, WindowTracksLog, Counting, Step, Run, MayCount;
    var begun := ExecuteAll(t, input, n) + BeginAll(t, input, k);
    if m == 0 {
      AllBegun(p, t, input, n, k);
      assert begun + FinishAll(t, 0) == begun;
      FilledCounts(Run(p, t, begun).log, t);
    } else {
      var events := begun + FinishAll(t, m - 1);
      AllFinished(p, t, input, n, k, m - 1);
      FinishAdds(p, Run(p, t, events), t, m - 1, k);
      RunSnoc(p, t, events, Finish(t, m - 1));
      assert begun + FinishAll(t, m) == events + [Finish(t, m - 1)];
    }
  }

  // The shape of that run: everything at one time, ids below `k`, executions first.

  /** The first `n` events are executions at `t`, the others begin or finish work numbered below `k`, at `t`. */
  ghost predicate Shaped(events: seq<Event>, t: int, n: nat, k: nat) {
    forall i :: 0 <= i < |events| ==>
      && Begins(events[i]) == Ends(events[i]) == t
      && (i < n ==> events[i].Execute?)
      && (i >= n ==> (events[i].Begin? && events[i].id < k) || events[i].Finish?)
  }

  lemma {:induction false} OverlapIsShaped(t: int, input: GovernanceInput, n: nat, k: nat)
    ensures Shaped(Overlap(t, input, n, k), t, n, k)
  {
    hide BuildDecisionContext;
    ExecutionsOnly(t, input, n);
    BeginsBelow(t, input, k);
    FinishesOnly(t, k);
  }

  lemma {:induction false} ExecutionsOnly(t: int, input: GovernanceInput, n: nat)
    ensures |ExecuteAll(t, input, n)| == n
    ensures forall i :: 0 <= i < n ==> ExecuteAll(t, input, n)[i] == Execute(t, t, BuildDecisionContext(input))
  {
    hide BuildDecisionContext;
    if n > 0 {
      ExecutionsOnly(t, input, n - 1);
    }
  }

  lemma {:induction false} BeginsBelow(t: int, input: GovernanceInput, k: nat)
    ensures |BeginAll(t, input, k)| == k
    ensures forall i :: 0 <= i < k ==> BeginAll(t, input, k)[i] == Begin(t, i, input)
  {
    if k > 0 {
      BeginsBelow(t, input, k - 1);
    }
  }

  lemma {:induction false} FinishesOnly(t: int, k: nat)
    ensures |FinishAll(t, k)| == k
    ensures forall i :: 0 <= i < k ==> FinishAll(t, k)[i] == Finish(t, i)
  {
    if k > 0 {
      FinishesOnly(t, k - 1);
    }
  }

  ghost function Below(k: nat): (r: set<nat>)
    ensures |r| == k && forall id: nat :: id in r <==> id < k
  {
    if k == 0 then {} else Below(k - 1) + {k - 1}
  }

  lemma {:induction false} ShapedIsBelow(p: Policy, events: seq<Event>, t: int, n: nat, k: nat)
    requires Shaped(events, t, n, k)
    ensures forall id :: id in Run(p, t, events).pending ==> id < k
    ensures |events| <= n ==> Run(p, t, events).pending == map[]
  {
    hide VerdictOn, WindowAfter, BuildDecisionContext;
    if events != [] {
      ShapedIsBelow(p, events[..|events| - 1], t, n, k);
    }
  }

  lemma {:induction false} ShapedIsInFlight(p: Policy, events: seq<Event>, t: int, n: nat, k: nat)
    requires Shaped(events, t, n, k) && k >= 1
    ensures Ordered(t, events) && AtMostInFlight(p, t, events, k)
  {
    hide VerdictOn, BuildDecisionContext, WindowAfter;
    forall i | 0 <= i < |events|
      ensures InFlightAt(p, Run(p, t, events[..i]), events[i]) <= k
    {
      hide Run, Step, Begins, Ends;
      ShapedIsBelow(p, events[..i + 1], t, n, k);
      RunSnoc(p, t, events[..i], events[i]);
      assert events[..i] + [events[i]] == events[..i + 1];
      FewerMembers(Waiting(Run(p, t, events[..i + 1])), Below(k));
      if i < n {
        assert Waiting(Run(p, t, events[..i + 1])) == {};
      }
    }
  }

  /** For every request that may count, the bound is attained, with `k` in flight and no more. */
  lemma {:induction false} BoundIsAttained(p: Policy, input: GovernanceInput, t: int, k: nat)
    requires MayCount(p, input, t) && k >= 1
    ensures p.autonomousPerHour >= 1
    ensures var events := Overlap(t, input, p.autonomousPerHour - 1, k);
      && Ordered(t, events) && AtMostInFlight(p, t, events, k)
      && UnapprovedIn(Run(p, t, events).log, t) == HourlyBound(p.autonomousPerHour, k)
  {
    hide Ordered, AtMostInFlight, UnapprovedIn, Run, BuildDecisionContext, Shaped;
    RoomIsEnough(BuildDecisionContext(input), p, t, 0, 0);
    var n := p.autonomousPerHour - 1;
    OverlapIsShaped(t, input, n, k);
    ShapedIsInFlight(p, Overlap(t, input, n, k), t, n, k);
    AllFinished(p, t, input, n, k, k);
  }

  // ---------------------------------------------------------------------------
  // Exactly when the hourly budget holds
  // ---------------------------------------------------------------------------

  ghost predicate KeepsBudget(p: Policy, start: int, events: seq<Event>) {
    forall from {:trigger UnapprovedIn(Run(p, start, events).log, from)} ::
      UnapprovedIn(Run(p, start, events).log, from) <= Max(p.autonomousPerHour, 0)
  }

  /**
   * With a request that may count, the budget holds over all runs with at most `k` in flight
   * exactly for `k` up to one.
   */
  lemma {:induction false} BudgetHoldsInFlightExactly(p: Policy, input: GovernanceInput, t: int, k: nat)
    requires MayCount(p, input, t)
    ensures (forall start, events :: Ordered(start, events) && AtMostInFlight(p, start, events, k) ==>
               KeepsBudget(p, start, events))
       <==> k <= 1
  {
    hide Ordered, AtMostInFlight, UnapprovedIn, Run, MayCount, Overlap;
    if k <= 1 {
      forall start, events | Ordered(start, events) && AtMostInFlight(p, start, events, k)
        ensures KeepsBudget(p, start, events)
      {
        forall from
          ensures UnapprovedIn(Run(p, start, events).log, from) <= Max(p.autonomousPerHour, 0)
        {
          HourlyLimitInFlight(p, start, events, k, from);
        }
      }
    } else {
      BoundIsAttained(p, input, t, k);
      assert !KeepsBudget(p, t, Overlap(t, input, p.autonomousPerHour - 1, k));
    }
  }

  /** The policy would allow some operational bridge request on an empty window. */
  ghost predicate AllowsOperationalBridge(p: Policy) {
    exists input, t :: MayCount(p, input, t)
  }

  lemma {:induction false} NoneWaits(p: Policy, start: int, events: seq<Event>)
    requires !AllowsOperationalBridge(p)
    ensures Waiting(Run(p, start, events)) == {}
  {
    hide VerdictOn, WindowAfter, BuildDecisionContext, Overall, Charged;
    if events != [] {
      var n := |events| - 1;
      var st, e := Run(p, start, events[..n]), events[n];
      NoneWaits(p, start, events[..n]);
      if e.Begin? {
        BegunDoesNotCount(p, st, e);
      }
    }
  }

  lemma {:induction false} BegunDoesNotCount(p: Policy, st: State, e: Event)
    requires !AllowsOperationalBridge(p) && e.Begin?
    ensures !Counts(Step(p, st, e).pending[e.id])
  {
    hide BuildDecisionContext, Overall, Charged, HasValidPriorApproval;
    var ctx := BuildDecisionContext(e.input);
    assert !MayCount(p, e.input, e.at);
    OperationalCounts(e.input, e.at);
    if Charged(ctx, e.at) {
      var w := WindowAfter(st.window, ctx, e.at);
      RoomIsEnough(ctx, p, e.at, CountOf(w, Allow), CountOf(w, AllowWithCosign));
    }
  }

  /**
   * The exact condition on the policy: the hourly budget holds over every run, with any number
   * of executions in flight, if and only if the policy never allows an operational bridge
   * request on an empty window.
   */
  lemma {:induction false} BudgetHoldsExactly(p: Policy)
    ensures (forall start, events :: Ordered(start, events) ==> KeepsBudget(p, start, events))
       <==> !AllowsOperationalBridge(p)
  {
    hide Ordered, UnapprovedIn, Run, MayCount, Overlap;
    if AllowsOperationalBridge(p) {
      var input, t :| MayCount(p, input, t);
      BoundIsAttained(p, input, t, 2);
      assert !KeepsBudget(p, t, Overlap(t, input, p.autonomousPerHour - 1, 2));
    } else {
      forall start, events | Ordered(start, events)
        ensures KeepsBudget(p, start, events)
      {
        NoneInFlight(p, start, events);
        forall from
          ensures UnapprovedIn(Run(p, start, events).log, from) <= Max(p.autonomousPerHour, 0)
        {
          HourlyLimitInFlight(p, start, events, 1, from);
        }
      }
    }
  }

  lemma {:induction false} NoneInFlight(p: Policy, start: int, events: seq<Event>)
    requires !AllowsOperationalBridge(p)
    ensures AtMostInFlight(p, start, events, 1)
  {
    hide Run, AllowsOperationalBridge;
    forall i | 0 <= i < |events|
      ensures InFlightAt(p, Run(p, start, events[..i]), events[i]) <= 1
    {
      hide Step, Waiting;
      NoneWaits(p, start, events[..i + 1]);
      RunSnoc(p, start, events[..i], events[i]);
      assert events[..i] + [events[i]] == events[..i + 1];
    }
  }

  /**
   * An operational bridge request is irreversible, so a policy that holds irreversible actions
   * at all never allows one, and its hourly budget holds however executions overlap.
   */
  lemma {:induction false} HeldIrreversiblesKeepBudget(p: Policy, start: int, events: seq<Event>)
    requires p.irreversibleVerdict != Allow && Ordered(start, events)
    ensures !AllowsOperationalBridge(p) && KeepsBudget(p, start, events)
  {
    hide Ordered, UnapprovedIn, Run, KeepsBudget;
    forall input, t
      ensures !MayCount(p, input, t)
    {
      IrreversibleIsHeld(p, input, t);
    }
    BudgetHoldsExactly(p);
  }

  lemma {:induction false} IrreversibleIsHeld(p: Policy, input: GovernanceInput, t: int)
    requires p.irreversibleVerdict != Allow
    ensures !MayCount(p, input, t)
  {
    hide Sovereignty, RiskTier, Impact, Confidence, Evidence, RateLimits, Fallback, JoinAll, HasValidPriorApproval;
    var ctx := BuildDecisionContext(input);
    AllowedExactly(ctx, p, t, 0, 0);
    assert Findings(ctx, p, t, 0, 0)[2] == Reversibility(ctx, p);
  }

  /**
   * Exactly when gate 8 holds charged work to the co-sign budget: while the autonomous budget
   * is not spent. Once it is, gate 8 asks for a co-signature however many were given.
   */
  lemma {:induction false} CosignBudgetBindsExactly(ctx: Context, p: Policy, now: int, auto: nat)
    requires Charged(ctx, now)
    ensures (forall cosign: nat :: cosign >= p.cosignPerHour ==>
               RateLimits(ctx, p, now, auto, cosign).verdict == Escalate)
       <==> auto < p.autonomousPerHour
  {
    var spent: nat := Max(p.cosignPerHour, 0);
    assert RateLimits(ctx, p, now, auto, spent).verdict
        == if auto >= p.autonomousPerHour then AllowWithCosign else Escalate;
  }
}
