/**
 * Human co-signature: the store of held decisions, and the release handler as a protocol of
 * three atomic steps (look up, deposit in the audit chain, mark released) run by any number of
 * clients at once, with crashes between steps.
 */
module Cosign {
  import opened Prelude

  datatype Held = Held(
    recordId: string,
    requestId: string,
    verdict: string,
    content: string,
    releasedAt: Option<string>,
    releasedBy: Option<string>)

  // ---------------------------------------------------------------------------
  // The store
  // ---------------------------------------------------------------------------

  type Rows = map<string, Held>

  predicate IsOpen(rows: Rows, id: string) {
    id in rows && rows[id].releasedAt.None?
  }

  function Holding(rows: Rows, id: string, requestId: string, verdict: string, content: string): Rows {
    rows[id := Held(id, requestId, verdict, content, None, None)]
  }

  /** The conditional update: it changes a row only if it is there and open. */
  function Marking(rows: Rows, id: string, operator: string, now: string): Rows {
    if IsOpen(rows, id) then rows[id := rows[id].(releasedAt := Some(now), releasedBy := Some(operator))] else rows
  }

  /** The row is closed, and says by whom and when. */
  predicate SignedBy(rows: Rows, id: string, operator: string, now: string) {
    id in rows && rows[id].releasedBy == Some(operator) && rows[id].releasedAt == Some(now)
  }

  /** Nothing but the signature of this row has changed. */
  ghost predicate OnlySigned(before: Rows, after: Rows, id: string) {
    && after.Keys == before.Keys
    && (forall other :: other in before && other != id ==> after[other] == before[other])
    && (id in before ==>
          && after[id].recordId == before[id].recordId && after[id].requestId == before[id].requestId
          && after[id].verdict == before[id].verdict && after[id].content == before[id].content)
  }

  /** Every row is filed under its own id. */
  ghost predicate WellFiled(rows: Rows) {
    forall id :: id in rows ==> rows[id].recordId == id
  }

  class CosignStore {
    var rows: Rows

    constructor ()
      ensures rows == map[]
    {
      rows := map[];
    }

    /** INSERT OR REPLACE: the decision is open under its id, whatever was there; no other id changes. */
    method Hold(id: string, requestId: string, verdict: string, content: string)
      modifies this
      ensures IsOpen(rows, id) && rows[id].content == content && rows[id].recordId == id
      ensures rows[id].requestId == requestId && rows[id].verdict == verdict
      ensures rows.Keys == old(rows).Keys + {id}
      ensures forall other :: other in old(rows) && other != id ==> rows[other] == old(rows)[other]
      ensures WellFiled(old(rows)) ==> WellFiled(rows)
      ensures rows == Holding(old(rows), id, requestId, verdict, content)
    {
      rows := rows[id := Held(id, requestId, verdict, content, None, None)];
    }

    /** The row filed under the id, so on a well-filed store the decision held under it. */
    method Get(id: string) returns (held: Option<Held>)
      ensures held.Some? <==> id in rows
      ensures held.Some? ==> held.value == rows[id] && (held.value.releasedAt.None? <==> IsOpen(rows, id))
      ensures held.Some? && WellFiled(rows) ==> held.value.recordId == id
    {
      held := if id in rows then Some(rows[id]) else None;
    }

    /** True exactly once per hold: the caller that found the row open. */
    method MarkReleased(id: string, operator: string, now: string) returns (ok: bool)
      modifies this
      ensures ok <==> IsOpen(old(rows), id)
      ensures rows == Marking(old(rows), id, operator, now)
      ensures !IsOpen(rows, id) && (ok ==> SignedBy(rows, id, operator, now))
      ensures ok ==> OnlySigned(old(rows), rows, id)
      ensures !ok ==> rows == old(rows)
    {
      if id in rows && rows[id].releasedAt.None? {
        rows := rows[id := rows[id].(releasedAt := Some(now), releasedBy := Some(operator))];
        return true;
      }
      return false;
    }
  }

  // ---------------------------------------------------------------------------
  // The protocol
  // ---------------------------------------------------------------------------

  /** Where a running request is: it has read an open row, or has also deposited its co-signature. */
  datatype Phase = Fetched(held: Held, operator: string) | Deposited(held: Held, operator: string)

  /** A `cosign.release` record in the audit chain. */
  datatype Release = Release(heldRecordId: string, operator: string)

  datatype HandOut = HandOut(recordId: string, content: string)

  /** `rows` and `chain` are in the database; `clients` is lost in a crash. */
  datatype State = State(rows: Rows, chain: seq<Release>, clients: map<nat, Phase>, handed: seq<HandOut>)

  datatype Step =
    | HoldStep(id: string, requestId: string, verdict: string, content: string)
    | GetStep(client: nat, id: string, operator: string)
    | DepositStep(client: nat)
    | MarkStep(client: nat, now: string)
    | CrashStep

  /** Refused lookups (400, 404, 409) leave no trace; a client number names one request. */
  function Next(st: State, s: Step): State {
    match s
    case HoldStep(id, requestId, verdict, content) => st.(rows := Holding(st.rows, id, requestId, verdict, content))
    case GetStep(c, id, operator) =>
      if c !in st.clients && id != "" && operator != "" && IsOpen(st.rows, id)
      then st.(clients := st.clients[c := Fetched(st.rows[id], operator)])
      else st
    case DepositStep(c) =>
      if c in st.clients && st.clients[c].Fetched? then
        var p := st.clients[c];
        st.(chain := st.chain + [Release(p.held.recordId, p.operator)],
            clients := st.clients[c := Deposited(p.held, p.operator)])
      else st
    case MarkStep(c, now) =>
      if c in st.clients && st.clients[c].Deposited? then
        var p := st.clients[c];
        var id := p.held.recordId;
        st.(rows := Marking(st.rows, id, p.operator, now),
            clients := st.clients - {c},
            handed := if IsOpen(st.rows, id) then st.handed + [HandOut(id, p.held.content)] else st.handed)
      else st
    case CrashStep => st.(clients := map[])
  }

  function Run(steps: seq<Step>): State {
    if steps == [] then State(map[], [], map[], [])
    else Next(Run(steps[..|steps| - 1]), steps[|steps| - 1])
  }

  // ---------------------------------------------------------------------------
  // The handler, uninterrupted
  // ---------------------------------------------------------------------------

  class ReleaseLog {
    var chain: seq<Release>

    constructor ()
      ensures chain == []
    {
      chain := [];
    }

    method Append(r: Release)
      modifies this
      ensures chain == old(chain) + [r]
    {
      chain := chain + [r];
    }
  }

  datatype Response = BadRequest | NotFound | AlreadyReleased | LostRace | Released(recordId: string, content: string)

  /** A request that no other interleaves with: exactly the three steps, and never a lost race. */
  method HandleCosign(store: CosignStore, log: ReleaseLog, id: string, operator: string, now: string)
    returns (r: Response)
    modifies store, log
    ensures var st := State(old(store.rows), old(log.chain), map[], []);
      var st' := Next(Next(Next(st, GetStep(0, id, operator)), DepositStep(0)), MarkStep(0, now));
      && store.rows == st'.rows && log.chain == st'.chain
      && st'.handed == if r.Released? then [HandOut(r.recordId, r.content)] else []
    ensures r.BadRequest? <==> id == "" || operator == ""
    ensures r.NotFound? <==> id != "" && operator != "" && id !in old(store.rows)
    ensures r.AlreadyReleased? <==> id != "" && operator != "" && id in old(store.rows) && !IsOpen(old(store.rows), id)
    ensures !r.Released? && !r.LostRace? ==> store.rows == old(store.rows) && log.chain == old(log.chain)
    ensures WellFiled(old(store.rows)) ==> !r.LostRace?
    ensures r.Released? || r.LostRace? ==>
      && operator != "" && IsOpen(old(store.rows), id)
      && log.chain == old(log.chain) + [Release(old(store.rows)[id].recordId, operator)]
    ensures r.Released? ==>
      && r.recordId == old(store.rows)[id].recordId && r.content == old(store.rows)[id].content
      && SignedBy(store.rows, r.recordId, operator, now) && OnlySigned(old(store.rows), store.rows, r.recordId)
    ensures r.LostRace? ==> store.rows == old(store.rows)
    ensures r.Released? && WellFiled(old(store.rows)) ==> r.recordId == id
  {
    if id == "" || operator == "" {
      return BadRequest;
    }
    var held := store.Get(id);
    if held.None? {
      return NotFound;
    }
    if held.value.releasedAt.Some? {
      return AlreadyReleased;
    }
    log.Append(Release(held.value.recordId, operator));
    var ok := store.MarkReleased(held.value.recordId, operator, now);
    if !ok {
      return LostRace;
    }
    r := Released(held.value.recordId, held.value.content);
  }

  function HandOuts(handed: seq<HandOut>, id: string): nat {
    if handed == [] then 0
    else HandOuts(handed[..|handed| - 1], id) + if handed[|handed| - 1].recordId == id then 1 else 0
  }

  function Holds(steps: seq<Step>, id: string): nat {
    if steps == [] then 0
    else
      var s := steps[|steps| - 1];
      Holds(steps[..|steps| - 1], id) + if s.HoldStep? && s.id == id then 1 else 0
  }

  function Releases(chain: seq<Release>, id: string): nat {
    if chain == [] then 0
    else Releases(chain[..|chain| - 1], id) + if chain[|chain| - 1].heldRecordId == id then 1 else 0
  }

  /** This content was held under this id at some point of the run. */
  ghost predicate WasHeld(steps: seq<Step>, id: string, content: string) {
    exists i :: 0 <= i < |steps| && steps[i].HoldStep? && steps[i].id == id && steps[i].content == content
  }

  // ---------------------------------------------------------------------------
  // Released at most once per hold
  // ---------------------------------------------------------------------------

  lemma {:induction false} HandOutsSnoc(handed: seq<HandOut>, h: HandOut, id: string)
    ensures HandOuts(handed + [h], id) == HandOuts(handed, id) + if h.recordId == id then 1 else 0
  {
    assert (handed + [h])[..|handed|] == handed;
  }

  function Open(rows: Rows, id: string): nat {
    if IsOpen(rows, id) then 1 else 0
  }

  lemma {:induction false} NextSpendsAHold(st: State, s: Step, id: string)
    ensures HandOuts(Next(st, s).handed, id) + Open(Next(st, s).rows, id)
      <= HandOuts(st.handed, id) + Open(st.rows, id) + if s.HoldStep? && s.id == id then 1 else 0
  {
    if s.MarkStep? && s.client in st.clients {
      var held := st.clients[s.client].held;
      HandOutsSnoc(st.handed, HandOut(held.recordId, held.content), id);
    }
  }

  /**
   * In any interleaving, with any crashes and even with ids reused, a decision is handed out at
   * most once per time it was held; an open row is a hold not yet spent.
   */
  lemma {:induction false} HandedOutAtMostPerHold(steps: seq<Step>, id: string)
    ensures HandOuts(Run(steps).handed, id) + Open(Run(steps).rows, id) <= Holds(steps, id)
  {
    if steps != [] {
      var front, s := steps[..|steps| - 1], steps[|steps| - 1];
      HandedOutAtMostPerHold(front, id);
      NextSpendsAHold(Run(front), s, id);
    }
  }

  /** Record ids are fresh: no two holds share one. */
  ghost predicate FreshIds(steps: seq<Step>) {
    forall i, j :: 0 <= i < j < |steps| && steps[i].HoldStep? && steps[j].HoldStep? ==> steps[i].id != steps[j].id
  }

  lemma {:induction false} FreshMeansHeldOnce(steps: seq<Step>, id: string)
    requires FreshIds(steps)
    ensures Holds(steps, id) <= 1
    ensures Holds(steps, id) == 1 ==> exists i :: 0 <= i < |steps| && steps[i].HoldStep? && steps[i].id == id
  {
    if steps != [] {
      var n := |steps| - 1;
      FreshMeansHeldOnce(steps[..n], id);
      if Holds(steps[..n], id) == 1 {
        var i :| 0 <= i < n && steps[..n][i].HoldStep? && steps[..n][i].id == id;
        assert steps[i].HoldStep? && steps[i].id == id;
      } else if Holds(steps, id) == 1 {
        assert steps[n].HoldStep? && steps[n].id == id;
      }
    }
  }

  /** With fresh ids, no decision's content is ever handed out twice. */
  lemma {:induction false} HandedOutAtMostOnce(steps: seq<Step>, id: string)
    requires FreshIds(steps)
    ensures HandOuts(Run(steps).handed, id) <= 1
  {
    HandedOutAtMostPerHold(steps, id);
    FreshMeansHeldOnce(steps, id);
  }

  // ---------------------------------------------------------------------------
  // Write-ahead: no release without its audit record
  // ---------------------------------------------------------------------------

  ghost predicate HasRelease(chain: seq<Release>, id: string) {
    exists i :: 0 <= i < |chain| && chain[i].heldRecordId == id
  }

  lemma {:induction false} ReleaseStays(chain: seq<Release>, more: seq<Release>, id: string)
    requires HasRelease(chain, id)
    ensures HasRelease(chain + more, id)
  {
    var i :| 0 <= i < |chain| && chain[i].heldRecordId == id;
    assert (chain + more)[i] == chain[i];
  }

  /** Released rows, deposited clients and handed-out contents all have their `cosign.release` record. */
  ghost predicate Audited(st: State) {
    && (forall id :: id in st.rows && st.rows[id].releasedAt.Some? ==> HasRelease(st.chain, id))
    && (forall c :: c in st.clients && st.clients[c].Deposited? ==> HasRelease(st.chain, st.clients[c].held.recordId))
    && (forall i :: 0 <= i < |st.handed| ==> HasRelease(st.chain, st.handed[i].recordId))
  }

  lemma {:induction false} NextIsAudited(st: State, s: Step)
    requires Audited(st)
    ensures Audited(Next(st, s))
  {
    if s.DepositStep? && s.client in st.clients && st.clients[s.client].Fetched? {
      var p := st.clients[s.client];
      var more := [Release(p.held.recordId, p.operator)];
      assert (st.chain + more)[|st.chain|].heldRecordId == p.held.recordId;
      forall id | HasRelease(st.chain, id)
        ensures HasRelease(st.chain + more, id)
      {
        ReleaseStays(st.chain, more, id);
      }
    }
  }

  /**
   * At every point of every interleaving, including just after a crash, each released decision
   * already has its `cosign.release` record on the chain.
   */
  lemma {:induction false} ReleaseIsAlwaysAudited(steps: seq<Step>)
    ensures Audited(Run(steps))
  {
    if steps != [] {
      ReleaseIsAlwaysAudited(steps[..|steps| - 1]);
      NextIsAudited(Run(steps[..|steps| - 1]), steps[|steps| - 1]);
    }
  }

  // ---------------------------------------------------------------------------
  // Who signed
  // ---------------------------------------------------------------------------

  ghost predicate IsRecorded(chain: seq<Release>, id: string, operator: string) {
    exists k :: 0 <= k < |chain| && chain[k].heldRecordId == id && chain[k].operator == operator
  }

  /** The operator looked this decision up at some point of the run. */
  ghost predicate AskedFor(steps: seq<Step>, id: string, operator: string) {
    exists i :: 0 <= i < |steps| && steps[i].GetStep? && steps[i].id == id && steps[i].operator == operator
  }

  /** A release was marked at this time at some point of the run. */
  ghost predicate MarkedAt(steps: seq<Step>, now: string) {
    exists i :: 0 <= i < |steps| && steps[i].MarkStep? && steps[i].now == now
  }

  /**
   * A row names who released it and when if and only if it is released, and that operator has a
   * `cosign.release` record for it; every record, and every request in flight, is of a named
   * operator who asked for that decision.
   */
  ghost predicate Signed(steps: seq<Step>, st: State) {
    && RowsAreSigned(steps, st.rows, st.chain)
    && RecordsAreAskedFor(steps, st.chain)
    && (forall c :: c in st.clients ==> SignsFor(steps, st.chain, st.clients[c]))
  }

  ghost predicate RowsAreSigned(steps: seq<Step>, rows: Rows, chain: seq<Release>) {
    forall id :: id in rows ==>
      && rows[id].recordId == id && (rows[id].releasedBy.Some? <==> rows[id].releasedAt.Some?)
      && (rows[id].releasedAt.Some? ==>
            IsRecorded(chain, id, rows[id].releasedBy.value) && MarkedAt(steps, rows[id].releasedAt.value))
  }

  ghost predicate RecordsAreAskedFor(steps: seq<Step>, chain: seq<Release>) {
    forall k :: 0 <= k < |chain| ==>
      chain[k].operator != "" && AskedFor(steps, chain[k].heldRecordId, chain[k].operator)
  }

  ghost predicate SignsFor(steps: seq<Step>, chain: seq<Release>, p: Phase) {
    && p.operator != "" && AskedFor(steps, p.held.recordId, p.operator)
    && (p.Deposited? ==> IsRecorded(chain, p.held.recordId, p.operator))
  }

  lemma {:induction false} AskedStays(steps: seq<Step>, s: Step)
    ensures forall id, operator :: AskedFor(steps, id, operator) ==> AskedFor(steps + [s], id, operator)
    ensures s.GetStep? ==> AskedFor(steps + [s], s.id, s.operator)
    ensures forall now :: MarkedAt(steps, now) ==> MarkedAt(steps + [s], now)
    ensures s.MarkStep? ==> MarkedAt(steps + [s], s.now)
  {
    assert forall i :: 0 <= i < |steps| ==> (steps + [s])[i] == steps[i];
    assert (steps + [s])[|steps|] == s;
  }

  lemma {:induction false} RecordedStays(chain: seq<Release>, r: Release)
    ensures forall id, operator :: IsRecorded(chain, id, operator) ==> IsRecorded(chain + [r], id, operator)
    ensures IsRecorded(chain + [r], r.heldRecordId, r.operator)
  {
    assert forall k :: 0 <= k < |chain| ==> (chain + [r])[k] == chain[k];
    assert (chain + [r])[|chain|] == r;
  }

  /** A longer run, and one more record or none, keep everything signed. */
  lemma {:induction false} SignedStays(steps: seq<Step>, s: Step, st: State, r: Release)
    requires Signed(steps, st)
    ensures RowsAreSigned(steps + [s], st.rows, st.chain) && RowsAreSigned(steps + [s], st.rows, st.chain + [r])
    ensures RecordsAreAskedFor(steps + [s], st.chain)
    ensures forall c :: c in st.clients ==>
      SignsFor(steps + [s], st.chain, st.clients[c]) && SignsFor(steps + [s], st.chain + [r], st.clients[c])
  {
    hide IsRecorded, AskedFor, MarkedAt;
    AskedStays(steps, s);
    RecordedStays(st.chain, r);
  }

  lemma {:induction false} DepositIsSigned(steps: seq<Step>, st: State, s: Step)
    requires Signed(steps, st) && s.DepositStep? && s.client in st.clients && st.clients[s.client].Fetched?
    ensures Signed(steps + [s], Next(st, s))
  {
    hide IsRecorded, AskedFor, RowsAreSigned, MarkedAt;
    var p := st.clients[s.client];
    var r := Release(p.held.recordId, p.operator);
    SignedStays(steps, s, st, r);
    RecordedStays(st.chain, r);
  }

  lemma {:induction false} MarkIsSigned(steps: seq<Step>, st: State, s: Step)
    requires Signed(steps, st) && s.MarkStep? && s.client in st.clients && st.clients[s.client].Deposited?
    ensures Signed(steps + [s], Next(st, s))
  {
    hide IsRecorded, AskedFor, MarkedAt, RecordsAreAskedFor;
    SignedStays(steps, s, st, Release("", ""));
    AskedStays(steps, s);
  }

  lemma {:induction false} NextIsSigned(steps: seq<Step>, st: State, s: Step)
    requires Signed(steps, st)
    ensures Signed(steps + [s], Next(st, s))
  {
    hide IsRecorded, AskedFor, MarkedAt, RecordsAreAskedFor;
    SignedStays(steps, s, st, Release("", ""));
    match s
    case DepositStep(c) =>
      if c in st.clients && st.clients[c].Fetched? {
        DepositIsSigned(steps, st, s);
      }
    case MarkStep(c, now) =>
      if c in st.clients && st.clients[c].Deposited? {
        MarkIsSigned(steps, st, s);
      }
    case GetStep(c, id, operator) => AskedStays(steps, s);
    case _ =>
  }

  /**
   * At every point of every interleaving, with any crashes: each released decision names an
   * operator who asked for it and whose co-signature is on the chain, and no record is of
   * anybody who did not ask.
   */
  lemma {:induction false} ReleasesAreSigned(steps: seq<Step>)
    ensures Signed(steps, Run(steps))
  {
    if steps != [] {
      var front, s := steps[..|steps| - 1], steps[|steps| - 1];
      ReleasesAreSigned(front);
      NextIsSigned(front, Run(front), s);
      assert front + [s] == steps;
    }
  }

  /** The clients that have deposited a co-signature for this decision and not yet marked it. */
  ghost function Pending(st: State, id: string): set<nat> {
    set c | c in st.clients && st.clients[c].Deposited? && st.clients[c].held.recordId == id
  }

  lemma {:induction false} ReleasesSnoc(chain: seq<Release>, r: Release, id: string)
    ensures Releases(chain + [r], id) == Releases(chain, id) + if r.heldRecordId == id then 1 else 0
  {
    assert (chain + [r])[..|chain|] == chain;
  }

  /** The records of this decision. */
  ghost function RecordsOf(chain: seq<Release>, id: string): set<int> {
    set k | 0 <= k < |chain| && chain[k].heldRecordId == id
  }

  lemma {:induction false} ReleasesIsNumber(chain: seq<Release>, id: string)
    ensures Releases(chain, id) == |RecordsOf(chain, id)|
  {
    if chain != [] {
      var n := |chain| - 1;
      ReleasesIsNumber(chain[..n], id);
      assert RecordsOf(chain, id)
        == RecordsOf(chain[..n], id) + if chain[n].heldRecordId == id then {n} else {};
    }
  }

  ghost predicate Backed(st: State, id: string) {
    HandOuts(st.handed, id) + |Pending(st, id)| <= Releases(st.chain, id)
  }

  lemma {:induction false} DepositKeepsBacking(st: State, c: nat, id: string)
    requires c in st.clients && st.clients[c].Fetched? && Backed(st, id)
    ensures Backed(Next(st, DepositStep(c)), id)
  {
    ReleasesSnoc(st.chain, Release(st.clients[c].held.recordId, st.clients[c].operator), id);
    assert Pending(Next(st, DepositStep(c)), id)
      == Pending(st, id) + if st.clients[c].held.recordId == id then {c} else {};
  }

  lemma {:induction false} MarkKeepsBacking(st: State, c: nat, now: string, id: string)
    requires c in st.clients && st.clients[c].Deposited? && Backed(st, id)
    ensures Backed(Next(st, MarkStep(c, now)), id)
  {
    HandOutsSnoc(st.handed, HandOut(st.clients[c].held.recordId, st.clients[c].held.content), id);
    assert Pending(Next(st, MarkStep(c, now)), id) == Pending(st, id) - {c};
    assert c in Pending(st, id) <==> st.clients[c].held.recordId == id;
  }

  lemma {:induction false} NextKeepsBacking(st: State, s: Step, id: string)
    requires Backed(st, id)
    ensures Backed(Next(st, s), id)
  {
    match s
    case DepositStep(c) =>
      if c in st.clients && st.clients[c].Fetched? {
        DepositKeepsBacking(st, c, id);
      }
    case MarkStep(c, now) =>
      if c in st.clients && st.clients[c].Deposited? {
        MarkKeepsBacking(st, c, now, id);
      }
    case CrashStep =>
      assert Pending(Next(st, s), id) == {};
    case _ =>
      assert Pending(Next(st, s), id) == Pending(st, id);
  }

  /** Each hand-out is backed by a release record of its own; a request in flight may have one too. */
  lemma {:induction false} EachHandOutHasItsOwnRecord(steps: seq<Step>, id: string)
    ensures Backed(Run(steps), id)
  {
    if steps != [] {
      EachHandOutHasItsOwnRecord(steps[..|steps| - 1], id);
      NextKeepsBacking(Run(steps[..|steps| - 1]), steps[|steps| - 1], id);
    }
  }

  // ---------------------------------------------------------------------------
  // What is handed out is what was held
  // ---------------------------------------------------------------------------

  lemma {:induction false} HeldStays(steps: seq<Step>, s: Step)
    ensures forall id, content :: WasHeld(steps, id, content) ==> WasHeld(steps + [s], id, content)
    ensures s.HoldStep? ==> WasHeld(steps + [s], s.id, s.content)
  {
    forall id, content | WasHeld(steps, id, content)
      ensures WasHeld(steps + [s], id, content)
    {
      var i :| 0 <= i < |steps| && steps[i].HoldStep? && steps[i].id == id && steps[i].content == content;
      assert (steps + [s])[i] == steps[i];
    }
    assert (steps + [s])[|steps|] == s;
  }

  ghost predicate Genuine(steps: seq<Step>, st: State) {
    && (forall id :: id in st.rows ==> st.rows[id].recordId == id && WasHeld(steps, id, st.rows[id].content))
    && (forall c :: c in st.clients ==> WasHeld(steps, st.clients[c].held.recordId, st.clients[c].held.content))
    && (forall i :: 0 <= i < |st.handed| ==> WasHeld(steps, st.handed[i].recordId, st.handed[i].content))
  }

  lemma {:induction false} NextIsGenuine(steps: seq<Step>, st: State, s: Step)
    requires Genuine(steps, st)
    ensures Genuine(steps + [s], Next(st, s))
  {
    HeldStays(steps, s);
  }

  lemma {:induction false} HandedOutIsGenuine(steps: seq<Step>)
    ensures Genuine(steps, Run(steps))
  {
    if steps != [] {
      var front, s := steps[..|steps| - 1], steps[|steps| - 1];
      HandedOutIsGenuine(front);
      NextIsGenuine(front, Run(front), s);
      assert front + [s] == steps;
    }
  }

  /** With fresh ids, the content handed out for an id is the one content ever held under it. */
  lemma {:induction false} HandedOutIsTheHeldContent(steps: seq<Step>, i: nat, k: nat)
    requires FreshIds(steps) && i < |Run(steps).handed|
    requires k < |steps| && steps[k].HoldStep? && steps[k].id == Run(steps).handed[i].recordId
    ensures Run(steps).handed[i].content == steps[k].content
  {
    HandedOutIsGenuine(steps);
    var h := Run(steps).handed[i];
    assert WasHeld(steps, h.recordId, h.content);
  }

  // ---------------------------------------------------------------------------
  // What the protocol does not give
  // ---------------------------------------------------------------------------

  lemma {:induction false} RunSnoc(steps: seq<Step>, s: Step)
    ensures Run(steps + [s]) == Next(Run(steps), s)
  {
    assert (steps + [s])[..|steps|] == steps;
  }

  lemma {:induction false} RunFour(steps: seq<Step>, a: Step, b: Step, c: Step, d: Step)
    ensures Run(steps + [a, b, c, d]) == Next(Next(Next(Next(Run(steps), a), b), c), d)
  {
    hide Next, Run;
    RunSnoc(steps, a);
    RunSnoc(steps + [a], b);
    RunSnoc(steps + [a] + [b], c);
    RunSnoc(steps + [a] + [b] + [c], d);
    assert steps + [a, b, c, d] == steps + [a] + [b] + [c] + [d];
  }

  /** Hold the decision, then look it up, deposit and mark it. */
  function FullRelease(id: string): seq<Step> {
    [HoldStep(id, "q", "escalate", "c"), GetStep(0, id, "op"), DepositStep(0), MarkStep(0, "t")]
  }

  function Releasing(id: string, n: nat): seq<Step> {
    if n == 0 then [] else Releasing(id, n - 1) + FullRelease(id)
  }

  lemma {:induction false} FullReleaseHandsOut(steps: seq<Step>, id: string)
    requires id != "" && 0 !in Run(steps).clients
    ensures Run(steps + FullRelease(id)).handed == Run(steps).handed + [HandOut(id, "c")]
    ensures 0 !in Run(steps + FullRelease(id)).clients
  {
    var r := FullRelease(id);
    RunFour(steps, r[0], r[1], r[2], r[3]);
    var s1 := Next(Run(steps), r[0]);
    var s2 := Next(s1, r[1]);
    var s3 := Next(s2, r[2]);
    assert s3.clients[0] == Deposited(Held(id, "q", "escalate", "c", None, None), "op");
    assert IsOpen(s3.rows, id);
  }

  lemma {:induction false} HoldsSnoc(steps: seq<Step>, s: Step, id: string)
    ensures Holds(steps + [s], id) == Holds(steps, id) + if s.HoldStep? && s.id == id then 1 else 0
  {
    assert (steps + [s])[..|steps|] == steps;
  }

  lemma {:induction false} FullReleaseHoldsOnce(steps: seq<Step>, id: string)
    ensures Holds(steps + FullRelease(id), id) == Holds(steps, id) + 1
  {
    var r := FullRelease(id);
    HoldsSnoc(steps, r[0], id);
    HoldsSnoc(steps + [r[0]], r[1], id);
    HoldsSnoc(steps + [r[0]] + [r[1]], r[2], id);
    HoldsSnoc(steps + [r[0]] + [r[1]] + [r[2]], r[3], id);
    assert steps + r == steps + [r[0]] + [r[1]] + [r[2]] + [r[3]];
  }

  /** Each time a used id is held again, INSERT OR REPLACE re-opens the row and it is handed out again. */
  lemma {:induction false} ReusedIdIsHandedOutAgain(id: string, n: nat)
    requires id != ""
    ensures Holds(Releasing(id, n), id) == n && HandOuts(Run(Releasing(id, n)).handed, id) == n
    ensures 0 !in Run(Releasing(id, n)).clients
  {
    hide FullRelease, Next, Run;
    if n == 0 {
      NothingRunYet(id);
    } else {
      var before := Releasing(id, n - 1);
      ReusedIdIsHandedOutAgain(id, n - 1);
      FullReleaseHandsOut(before, id);
      FullReleaseHoldsOnce(before, id);
      HandOutsSnoc(Run(before).handed, HandOut(id, "c"), id);
    }
  }

  lemma {:induction false} NothingRunYet(id: string)
    ensures Holds([], id) == 0 && HandOuts(Run([]).handed, id) == 0 && 0 !in Run([]).clients
  {
  }

  /** At-most-once is guaranteed for exactly the ids that are held at most once. */
  lemma {:induction false} AtMostOnceExactly(id: string, n: nat)
    requires id != ""
    ensures (forall steps :: Holds(steps, id) == n ==> HandOuts(Run(steps).handed, id) <= 1) <==> n <= 1
  {
    hide Run, HandOuts;
    if n <= 1 {
      forall steps | Holds(steps, id) == n
        ensures HandOuts(Run(steps).handed, id) <= 1
      {
        HandedOutAtMostPerHold(steps, id);
      }
    } else {
      ReusedIdIsHandedOutAgain(id, n);
    }
  }
}
