/** The graceful-degradation ladder: eight reversible steps, climbed and unwound one at a time. */
module ResponseController {
  import opened Prelude
  import opened SentinelTypes

  const STEPS := 8

  /** The severity that triggers a step, from the least disruptive, 1, to the most, 8. */
  function Trigger(level: int): Severity {
    if level <= 2 then YELLOW else if level <= 5 then ORANGE else if level <= 7 then RED else BLACK
  }

  /** Levels 1 and 2 are housekeeping; the rest are visible to users. */
  predicate RequiresAuthorisation(level: int) {
    level >= 3
  }

  /** What the history records; the code tells the two refusals-to-apply apart by their reason. */
  datatype Action = Applied(level: int) | Withheld(level: int) | Reversed(level: int)

  /** The highest step whose trigger the severity reaches. */
  ghost predicate IsTarget(severity: Severity, target: int) {
    && 0 <= target <= STEPS
    && (target > 0 ==> Rank(severity) >= Rank(Trigger(target)))
    && forall level :: target < level <= STEPS ==> Rank(severity) < Rank(Trigger(level))
  }

  function Target(severity: Severity): int {
    match severity
    case GREEN => 0
    case YELLOW => 2
    case ORANGE => 5
    case RED => 7
    case BLACK => 8
  }

  /** `targetLevelFor` */
  method TargetLevelFor(severity: Severity) returns (target: int)
    ensures target == Target(severity) && IsTarget(severity, target)
  {
    target := 0;
    for level := 1 to STEPS + 1
      invariant 0 <= target < level
      invariant target > 0 ==> Rank(severity) >= Rank(Trigger(target))
      invariant forall l :: target < l < level ==> Rank(severity) < Rank(Trigger(l))
    {
      if Rank(severity) >= Rank(Trigger(level)) {
        target := level;
      }
    }
    TargetIsUnique(severity, target);
  }

  lemma {:induction false} TargetIsUnique(severity: Severity, target: int)
    requires IsTarget(severity, target)
    ensures target == Target(severity)
  {
    assert Rank(severity) >= Rank(Trigger(Target(severity))) || severity == GREEN;
    assert target < STEPS ==> Rank(severity) < Rank(Trigger(target + 1));
  }

  /** Where the ladder stops for each severity, and from which step on it needs an authorisation. */
  lemma {:induction false} LadderIsExact(level: int)
    ensures IsTarget(GREEN, 0) && IsTarget(YELLOW, 2) && IsTarget(ORANGE, 5) && IsTarget(RED, 7) && IsTarget(BLACK, 8)
    ensures RequiresAuthorisation(level) <==> level >= 3
  {
  }

  /** The level a severity deserves, whatever came before: capped by policy, and at 2 without authorisation. */
  function Settled(severity: Severity, enabled: bool, maxLevel: int): int {
    var desired := Min(Target(severity), maxLevel);
    if enabled then desired else Min(desired, 2)
  }

  // ---------------------------------------------------------------------------
  // The history as a stack
  // ---------------------------------------------------------------------------

  /** Replay a history on a stack of open steps; None if a step is reversed that is not the latest open one. */
  function Open(history: seq<Action>): Option<seq<int>> {
    if history == [] then Some([])
    else
      match (Open(history[..|history| - 1]), history[|history| - 1])
      case (None, _) => None
      case (Some(open), Applied(level)) => Some(open + [level])
      case (Some(open), Withheld(_)) => Some(open)
      case (Some(open), Reversed(level)) =>
        if open != [] && open[|open| - 1] == level then Some(open[..|open| - 1]) else None
  }

  /** The steps 1 to `level`. */
  function UpTo(level: int): (r: seq<int>)
    ensures |r| == Max(level, 0)
    ensures forall i :: 0 <= i < |r| ==> r[i] == i + 1
  {
    if level <= 0 then [] else UpTo(level - 1) + [level]
  }

  lemma {:induction false} OpenMore(history: seq<Action>, actions: seq<Action>, act: Action, level: int)
    requires Open(history + actions) == Some(UpTo(level)) && level >= 0
    ensures act == Applied(level + 1) ==> Open(history + (actions + [act])) == Some(UpTo(level + 1))
    ensures act.Withheld? ==> Open(history + (actions + [act])) == Some(UpTo(level))
    ensures level >= 1 && act == Reversed(level) ==> Open(history + (actions + [act])) == Some(UpTo(level - 1))
  {
    var all := history + (actions + [act]);
    assert all == (history + actions) + [act];
    assert all[..|all| - 1] == history + actions;
    assert level >= 1 ==> UpTo(level)[..level - 1] == UpTo(level - 1);
  }

  class Controller {
    const degradationEnabled: bool
    const maxLevel: int
    var currentLevel: int
    var history: seq<Action>

    ghost predicate Valid()
      reads this
    {
      && 0 <= maxLevel <= STEPS
      && 0 <= currentLevel <= maxLevel
      && (!degradationEnabled ==> currentLevel <= 2)
      && Open(history) == Some(UpTo(currentLevel))
    }

    constructor (enabled: bool, configuredMax: int)
      ensures Valid() && history == [] && currentLevel == 0
      ensures degradationEnabled == enabled && maxLevel == Max(0, Min(STEPS, configuredMax))
    {
      degradationEnabled := enabled;
      maxLevel := Max(0, Min(STEPS, configuredMax));
      currentLevel := 0;
      history := [];
    }

    /**
     * Climb towards the target, or unwind from the top. The level reached depends on the
     * severity alone; every applied and reversed step is recorded, in order.
     */
    method Reconcile(severity: Severity) returns (actions: seq<Action>)
      requires Valid()
      modifies this
      ensures Valid()
      ensures currentLevel == Settled(severity, degradationEnabled, maxLevel)
      ensures currentLevel <= 8 && currentLevel <= maxLevel && (!degradationEnabled ==> currentLevel <= 2)
      ensures degradationEnabled ==>
        match severity
        case GREEN => currentLevel == 0
        case YELLOW => currentLevel == Min(2, maxLevel)
        case ORANGE => currentLevel == Min(5, maxLevel)
        case RED => currentLevel == Min(7, maxLevel)
        case BLACK => currentLevel == maxLevel
      ensures history == old(history) + actions
      ensures forall a :: a in actions ==>
        match a
        case Applied(l) => old(currentLevel) < l <= currentLevel
        case Withheld(l) => l == currentLevel + 1 && RequiresAuthorisation(l) && !degradationEnabled
        case Reversed(l) => currentLevel < l <= old(currentLevel)
    {
      var target := TargetLevelFor(severity);
      var desired := Min(target, maxLevel);
      if desired > currentLevel {
        actions := Climb(desired);
      } else if desired < currentLevel {
        actions := Unwind(desired);
      } else {
        actions := [];
        assert history + [] == history;
      }
      history := history + actions;
    }

    method Climb(desired: int) returns (actions: seq<Action>)
      requires Valid() && currentLevel < desired <= maxLevel
      modifies this`currentLevel
      ensures old(currentLevel) <= currentLevel == (if degradationEnabled then desired else Min(desired, 2))
      ensures Open(history + actions) == Some(UpTo(currentLevel))
      ensures forall a :: a in actions ==>
        || (a.Applied? && old(currentLevel) < a.level <= currentLevel)
        || (a == Withheld(currentLevel + 1) && RequiresAuthorisation(currentLevel + 1) && !degradationEnabled)
    {
      actions := [];
      assert history + actions == history;
      var level := currentLevel + 1;
      while level <= desired
        invariant old(currentLevel) < level == currentLevel + 1 <= desired + 1
        invariant !degradationEnabled ==> currentLevel <= 2
        invariant Open(history + actions) == Some(UpTo(currentLevel))
        invariant forall a :: a in actions ==> a.Applied? && old(currentLevel) < a.level <= currentLevel
      {
        var authorised := !RequiresAuthorisation(level) || degradationEnabled;
        if !authorised {
          OpenMore(history, actions, Withheld(level), currentLevel);
          actions := actions + [Withheld(level)];
          break;
        }
        OpenMore(history, actions, Applied(level), currentLevel);
        currentLevel := level;
        actions := actions + [Applied(level)];
        level := level + 1;
      }
    }

    method Unwind(desired: int) returns (actions: seq<Action>)
      requires Valid() && 0 <= desired < currentLevel
      modifies this`currentLevel
      ensures currentLevel == desired
      ensures Open(history + actions) == Some(UpTo(currentLevel))
      ensures forall a :: a in actions ==> a.Reversed? && desired < a.level <= old(currentLevel)
    {
      hide Open, UpTo;
      actions := [];
      assert history + actions == history;
      var level := currentLevel;
      while level > desired
        invariant desired <= level == currentLevel <= old(currentLevel)
        invariant Open(history + actions) == Some(UpTo(currentLevel))
        invariant forall a :: a in actions ==> a.Reversed? && currentLevel < a.level <= old(currentLevel)
      {
        OpenMore(history, actions, Reversed(level), currentLevel);
        currentLevel := level - 1;
        actions := actions + [Reversed(level)];
        level := level - 1;
      }
    }
  }

  /**
   * Path independence over whole runs: only the last severity counts, and the open steps are
   * exactly 1 to the level.
   */
  method ReconcileAll(enabled: bool, configuredMax: int, severities: seq<Severity>)
    returns (level: int, history: seq<Action>)
    ensures severities == [] ==> level == 0
    ensures severities != [] ==>
      level == Settled(severities[|severities| - 1], enabled, Max(0, Min(STEPS, configuredMax)))
    ensures Open(history) == Some(UpTo(level))
  {
    var c := new Controller(enabled, configuredMax);
    for i := 0 to |severities|
      invariant fresh(c) && c.Valid()
      invariant i == 0 ==> c.currentLevel == 0
      invariant i > 0 ==> c.currentLevel == Settled(severities[i - 1], enabled, c.maxLevel)
    {
      var _ := c.Reconcile(severities[i]);
    }
    level, history := c.currentLevel, c.history;
  }
}
