/**
 * Gap accounting of the audit mirror: a compacted base plus a set of links confirmed out of
 * order, kept under fire-and-forget confirmations that arrive in any order.
 */
module AuditMirror {
  import opened Prelude

  /** How the register answered a write. */
  datatype Answer = Confirmed | Rejected | Silent | Threw

  /** Sequence numbers from `low` to `high` that `confirmed` lacks. */
  function Missing(low: int, high: int, confirmed: set<int>): set<int> {
    set n | low <= n <= high && n !in confirmed
  }

  /** All numbers from `low` to `high`. */
  ghost function Interval(low: int, high: int): (r: set<int>)
    ensures forall n :: n in r <==> low <= n <= high
    ensures |r| == if low <= high then high - low + 1 else 0
    decreases high - low
  {
    if low <= high then Interval(low, high - 1) + {high} else {}
  }

  lemma {:induction false} NonEmptyHasMember(s: set<int>)
    ensures s == {} || exists n :: n in s
  {
    if forall n :: n !in s {
      assert s == {};
    }
  }

  class Mirror {
    var mirrored: nat
    var failed: nat
    var degradations: nat
    var reachable: Option<bool>
    var lastSeqMirrored: Option<int>
    var lastSeqLocal: Option<int>
    var base: Option<int>
    var stragglers: set<int>

    /** The first number observed, and every number confirmed at or above it. */
    ghost var first: int
    ghost var confirmed: set<int>

    /** The base is the least unconfirmed number, the set exactly the confirmed ones above it. */
    ghost predicate Valid()
      reads this
    {
      && (base.None? ==> stragglers == {} && confirmed == {})
      && (base.Some? ==>
            && first <= base.value
            && (forall n :: n in confirmed ==> first <= n)
            && (forall n :: first <= n < base.value ==> n in confirmed)
            && base.value !in confirmed
            && (forall n :: n in stragglers <==> n in confirmed && n > base.value))
    }

    constructor ()
      ensures Valid() && base == None && mirrored == failed == degradations == 0
      ensures lastSeqLocal == None && lastSeqMirrored == None && reachable == None
    {
      reachable := None;
      mirrored, failed, degradations := 0, 0, 0;
      lastSeqMirrored, lastSeqLocal := None, None;
      base, stragglers := None, {};
      first, confirmed := 0, {};
    }

    /** `noteazaSeqLocal` */
    method NoteLocal(seqNo: int)
      requires Valid()
      modifies this`lastSeqLocal, this`base, this`first
      ensures Valid() && confirmed == old(confirmed)
      ensures base == (if old(base).None? then Some(seqNo) else old(base))
      ensures first == (if old(base).None? then seqNo else old(first))
      ensures lastSeqLocal
        == Some(if old(lastSeqLocal).None? then Max(0, seqNo) else Max(old(lastSeqLocal).value, seqNo))
    {
      lastSeqLocal := Some(Max(if lastSeqLocal.None? then 0 else lastSeqLocal.value, seqNo));
      if base.None? {
        base := Some(seqNo);
        first := seqNo;
      }
    }

    /** `noteazaSeqOglindit`, with its compaction loop. */
    method NoteMirrored(seqNo: int)
      requires Valid()
      modifies this`lastSeqMirrored, this`base, this`stragglers, this`first, this`confirmed
      ensures Valid() && base.Some?
      ensures first == if old(base).None? then seqNo else old(first)
      ensures confirmed == old(confirmed) + if seqNo >= first then {seqNo} else {}
      ensures lastSeqMirrored == Some(if old(lastSeqMirrored).None? then Max(0, seqNo)
                                      else Max(old(lastSeqMirrored).value, seqNo))
    {
      lastSeqMirrored := Some(Max(if lastSeqMirrored.None? then 0 else lastSeqMirrored.value, seqNo));
      if base.None? {
        base := Some(seqNo);
        first := seqNo;
      }
      if seqNo < base.value {
        assert seqNo >= first ==> confirmed + {seqNo} == confirmed;
        return;
      }
      stragglers := stragglers + {seqNo};
      confirmed := confirmed + {seqNo};
      while base.value in stragglers
        invariant base.Some? && first <= base.value
        invariant forall n :: n in confirmed ==> first <= n
        invariant forall n :: first <= n < base.value ==> n in confirmed
        invariant forall n :: n in stragglers <==> n in confirmed && n >= base.value
        modifies this`base, this`stragglers
        decreases stragglers
      {
        stragglers := stragglers - {base.value};
        base := Some(base.value + 1);
      }
    }

    /**
     * `numaraVerigiNeoglindite`: the count is of actual holes, whatever order the confirmations
     * came in.
     */
    method CountMissing(seqLocal: Option<int>) returns (gap: Option<nat>)
      requires Valid()
      ensures gap.Some? <==> seqLocal.Some? && base.Some?
      ensures gap.Some? ==> gap.value == |Missing(first, seqLocal.value, confirmed)|
    {
      if seqLocal.None? || base.None? {
        return None;
      }
      var high := seqLocal.value;
      MissingFromBase(high);
      if high < base.value {
        assert Missing(base.value, high, confirmed) == {};
        return Some(0);
      }
      var window := high - base.value + 1;
      var confirmedInWindow := 0;
      var left := stragglers;
      while left != {}
        invariant left <= stragglers
        invariant confirmedInWindow == |set s | s in stragglers - left && base.value <= s <= high|
        decreases left
      {
        NonEmptyHasMember(left);
        var s :| s in left;
        ghost var seen := set x | x in stragglers - left && base.value <= x <= high;
        if s >= base.value && s <= high {
          confirmedInWindow := confirmedInWindow + 1;
          assert (set x | x in stragglers - (left - {s}) && base.value <= x <= high) == seen + {s};
        } else {
          assert (set x | x in stragglers - (left - {s}) && base.value <= x <= high) == seen;
        }
        left := left - {s};
      }
      ghost var inWindow := set s | s in stragglers - left && base.value <= s <= high;
      assert inWindow == set s | s in stragglers && base.value <= s <= high;
      CountHoles(high, inWindow);
      gap := Some(Max(0, window - confirmedInWindow));
    }

    /** Nothing below the base is missing. */
    lemma {:induction false} MissingFromBase(high: int)
      requires Valid() && base.Some?
      ensures Missing(first, high, confirmed) == Missing(base.value, high, confirmed)
    {
    }

    lemma {:induction false} CountHoles(high: int, inWindow: set<int>)
      requires Valid() && base.Some? && base.value <= high
      requires inWindow == set s | s in stragglers && base.value <= s <= high
      ensures |Missing(base.value, high, confirmed)| == high - base.value + 1 - |inWindow|
    {
      var all := Interval(base.value, high);
      assert Missing(base.value, high, confirmed) == all - inWindow;
      assert inWindow <= all;
      assert |all - inWindow| == |all| - |inWindow|;
    }

    /**
     * The first half of `oglindesteVeriga`, up to the write: the link is noted in any case. With
     * no configuration nothing is counted; with no manager a failure is, but never a degradation.
     */
    method Starts(seqNo: int, configured: bool, hasManager: bool) returns (writes: bool)
      requires Valid()
      modifies this
      ensures Valid() && confirmed == old(confirmed) && base.Some?
      ensures first == (if old(base).None? then seqNo else old(first))
      ensures writes <==> configured && hasManager
      ensures failed == old(failed) + (if configured && !hasManager then 1 else 0)
      ensures mirrored == old(mirrored) && degradations == old(degradations)
      ensures lastSeqMirrored == old(lastSeqMirrored)
      ensures lastSeqLocal
        == Some(if old(lastSeqLocal).None? then Max(0, seqNo) else Max(old(lastSeqLocal).value, seqNo))
      ensures reachable == if writes then old(reachable) else Some(false)
    {
      NoteLocal(seqNo);
      if !configured {
        reachable := Some(false);
        return false;
      }
      if !hasManager {
        reachable := Some(false);
        failed := failed + 1;
        return false;
      }
      writes := true;
    }

    /** The second half of `oglindesteVeriga`: the register has answered, or the call has thrown. */
    method Answered(seqNo: int, answer: Answer, injected: bool, required: bool) returns (ok: bool)
      requires Valid()
      modifies this
      ensures Valid()
      ensures ok <==> answer == Confirmed || (answer == Silent && injected)
      ensures mirrored == old(mirrored) + (if ok then 1 else 0)
      ensures failed == old(failed) + (if ok then 0 else 1)
      ensures degradations == old(degradations) + (if !ok && required then 1 else 0)
      ensures lastSeqLocal == old(lastSeqLocal) && reachable == Some(ok)
      ensures !ok ==> base == old(base) && first == old(first) && confirmed == old(confirmed)
      ensures lastSeqMirrored == if !ok then old(lastSeqMirrored)
                                 else Some(if old(lastSeqMirrored).None? then Max(0, seqNo)
                                           else Max(old(lastSeqMirrored).value, seqNo))
      ensures ok ==>
        && base.Some? && first == (if old(base).None? then seqNo else old(first))
        && confirmed == old(confirmed) + if seqNo >= first then {seqNo} else {}
    {
      if answer == Rejected || answer == Threw || (answer == Silent && !injected) {
        failed := failed + 1;
        reachable := Some(false);
        if required {
          degradations := degradations + 1;
        }
        return false;
      }
      mirrored := mirrored + 1;
      NoteMirrored(seqNo);
      reachable := Some(true);
      ok := true;
    }
  }

  // ---------------------------------------------------------------------------
  // Whole runs
  // ---------------------------------------------------------------------------

  /** A link seen on the local chain, or a confirmation arriving: in any order, any number of times. */
  datatype Event = Local(seqNo: int) | Arrived(seqNo: int)

  function FirstSeen(events: seq<Event>): Option<int> {
    if events == [] then None else Some(events[0].seqNo)
  }

  function ConfirmedBy(events: seq<Event>): set<int> {
    set i | 0 <= i < |events| && events[i].Arrived? && events[i].seqNo >= events[0].seqNo :: events[i].seqNo
  }

  /** The greatest number of these events that `arrived` selects, or 0 if that is more; None if there is none. */
  ghost predicate IsLast(last: Option<int>, events: seq<Event>, arrived: bool) {
    && (last.Some? <==> exists i :: 0 <= i < |events| && events[i].Arrived? == arrived)
    && (last.Some? ==>
          && last.value >= 0
          && (forall i :: 0 <= i < |events| && events[i].Arrived? == arrived ==> events[i].seqNo <= last.value)
          && (last.value == 0
              || exists i :: 0 <= i < |events| && events[i].Arrived? == arrived && events[i].seqNo == last.value))
  }

  lemma {:induction false} LastSnoc(last: Option<int>, events: seq<Event>, e: Event, arrived: bool)
    requires IsLast(last, events, arrived)
    ensures e.Arrived? != arrived ==> IsLast(last, events + [e], arrived)
    ensures e.Arrived? == arrived ==>
      IsLast(Some(if last.None? then Max(0, e.seqNo) else Max(last.value, e.seqNo)), events + [e], arrived)
  {
    var all := events + [e];
    assert forall i :: 0 <= i < |events| ==> all[i] == events[i];
    assert all[|events|] == e;
  }

  /**
   * For any interleaving and every `high`, the reported gap is the number of links never
   * confirmed; the two last numbers are the greatest seen locally and the greatest confirmed.
   */
  method Replay(events: seq<Event>, high: int)
    returns (gap: Option<nat>, lastLocal: Option<int>, lastMirrored: Option<int>)
    ensures gap.Some? <==> events != []
    ensures gap.Some? ==> gap.value == |Missing(FirstSeen(events).value, high, ConfirmedBy(events))|
    ensures IsLast(lastLocal, events, false) && IsLast(lastMirrored, events, true)
  {
    hide IsLast;
    var m := new Mirror();
    NothingIsLast();
    for i := 0 to |events|
      invariant fresh(m) && m.Valid()
      invariant IsLast(m.lastSeqLocal, events[..i], false) && IsLast(m.lastSeqMirrored, events[..i], true)
      invariant m.base.Some? <==> i > 0
      invariant i > 0 ==> m.first == events[0].seqNo
      invariant m.confirmed == ConfirmedBy(events[..i])
    {
      assert events[..i + 1] == events[..i] + [events[i]];
      LastSnoc(m.lastSeqLocal, events[..i], events[i], false);
      LastSnoc(m.lastSeqMirrored, events[..i], events[i], true);
      match events[i] {
        case Local(n) => m.NoteLocal(n);
        case Arrived(n) => m.NoteMirrored(n);
      }
      ConfirmedSnoc(events[..i], events[i]);
    }
    assert events[..|events|] == events;
    gap := m.CountMissing(Some(high));
    lastLocal, lastMirrored := m.lastSeqLocal, m.lastSeqMirrored;
  }

  lemma {:induction false} NothingIsLast()
    ensures IsLast(None, [], false) && IsLast(None, [], true)
  {
  }

  lemma {:induction false} ConfirmedSnoc(events: seq<Event>, e: Event)
    ensures ConfirmedBy(events + [e]) == ConfirmedBy(events) +
      if e.Arrived? && (events == [] || e.seqNo >= events[0].seqNo) then {e.seqNo} else {}
  {
    var all := events + [e];
    assert forall i :: 0 <= i < |events| ==> all[i] == events[i];
    assert all[|events|] == e;
  }

  /** The order in which confirmations arrive does not matter, once the first observation is fixed. */
  lemma {:induction false} ArrivalOrderIsIrrelevant(a: seq<Event>, b: seq<Event>, high: int)
    requires a != [] && b != [] && a[0].seqNo == b[0].seqNo
    requires forall n :: Arrived(n) in a <==> Arrived(n) in b
    ensures Missing(FirstSeen(a).value, high, ConfirmedBy(a)) == Missing(FirstSeen(b).value, high, ConfirmedBy(b))
  {
    ConfirmedMembers(a);
    ConfirmedMembers(b);
  }

  lemma {:induction false} ConfirmedMembers(events: seq<Event>)
    requires events != []
    ensures forall n :: n in ConfirmedBy(events) <==> Arrived(n) in events && n >= events[0].seqNo
  {
    forall n | Arrived(n) in events && n >= events[0].seqNo
      ensures n in ConfirmedBy(events)
    {
      var i :| 0 <= i < |events| && events[i] == Arrived(n);
      assert events[i].seqNo == n;
    }
  }
}
