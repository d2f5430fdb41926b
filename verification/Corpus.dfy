/** Batch ingestion: a loop over the single-document pipeline, with a report per document. */
module Corpus {
  import opened Prelude
  import opened Ingestion

  datatype Disposition = Ingested | DuplicateHeld | RefusedDoc | Quarantined | Degraded

  datatype DocOutcome = DocOutcome(
    sourceUri: string, disposition: Disposition, objectIds: seq<nat>, reason: Option<Reason>, stagesReached: seq<nat>)

  datatype Report = Report(
    ok: bool, offered: nat, ingested: nat, duplicate: nat, refused: nat, quarantined: nat, degraded: nat,
    objectsWritten: nat, outcomes: seq<DocOutcome>)

  const DEPENDENCY_FAILURES: seq<Reason> := [
    "STORE_UNAVAILABLE", "STORE_CIRCUIT_OPEN", "STORE_TIMEOUT", "STORE_WRITE_REFUSED",
    "STORE_AUTH_FAILURE", "STORE_TLS_FAILURE", "STORE_PROTOCOL_ERROR", "EMBEDDING_UNAVAILABLE"]

  function DispositionOf(r: Outcome): Disposition {
    if r.ok && r.duplicate then DuplicateHeld
    else if r.ok then Ingested
    else if r.quarantined then Quarantined
    else if r.reason.Some? && r.reason.value in DEPENDENCY_FAILURES then Degraded
    else RefusedDoc
  }

  /** The failures that a later attempt may not meet again. */
  predicate MayPass(reason: Reason) {
    || reason == "STORE_UNAVAILABLE" || reason == "STORE_CIRCUIT_OPEN" || reason == "STORE_TIMEOUT"
    || reason == "STORE_WRITE_REFUSED" || reason == "STORE_AUTH_FAILURE" || reason == "STORE_TLS_FAILURE"
    || reason == "STORE_PROTOCOL_ERROR" || reason == "EMBEDDING_UNAVAILABLE"
  }

  /** The outcome says what became of the document, of which this is the answer. */
  predicate Tells(o: DocOutcome, req: Request, r: Outcome) {
    && o.sourceUri == req.sourceUri && o.objectIds == r.objectIds && o.reason == r.reason
    && |o.stagesReached| == |r.trace| && (forall i :: 0 <= i < |r.trace| ==> o.stagesReached[i] == r.trace[i].stage)
    && (o.disposition == Ingested <==> r.ok && !r.duplicate)
    && (o.disposition == DuplicateHeld <==> r.ok && r.duplicate)
    && (o.disposition == Quarantined <==> !r.ok && r.quarantined)
    && (o.disposition == Degraded <==> !r.ok && !r.quarantined && r.reason.Some? && MayPass(r.reason.value))
    && (o.disposition == RefusedDoc <==> !r.ok && !r.quarantined && !(r.reason.Some? && MayPass(r.reason.value)))
  }

  lemma {:induction false} ReportedTells(req: Request, r: Outcome)
    ensures Tells(Reported(req, r), req, r)
  {
    var names := DEPENDENCY_FAILURES;
    forall reason
      ensures reason in names <==> MayPass(reason)
    {
      assert names[0] == "STORE_UNAVAILABLE" && names[1] == "STORE_CIRCUIT_OPEN" && names[2] == "STORE_TIMEOUT";
      assert names[3] == "STORE_WRITE_REFUSED" && names[4] == "STORE_AUTH_FAILURE" && names[5] == "STORE_TLS_FAILURE";
      assert names[6] == "STORE_PROTOCOL_ERROR" && names[7] == "EMBEDDING_UNAVAILABLE" && |names| == 8;
    }
  }

  predicate Succeeded(d: Disposition) {
    d == Ingested || d == DuplicateHeld
  }

  function Stages(trace: seq<Entry>): seq<nat> {
    seq(|trace|, i requires 0 <= i < |trace| => trace[i].stage)
  }

  function Reported(req: Request, r: Outcome): DocOutcome {
    DocOutcome(req.sourceUri, DispositionOf(r), r.objectIds, r.reason, Stages(r.trace))
  }

  function Aborted(req: Request): DocOutcome {
    DocOutcome(req.sourceUri, RefusedDoc, [], Some("BATCH_ABORTED"), [])
  }

  // ---------------------------------------------------------------------------
  // The fold a batch amounts to
  // ---------------------------------------------------------------------------

  /** How many documents are attempted: all, or up to and with the first failure when stopping. */
  ghost function Attempted(w: World, st: State, calls: seq<Call>, stop: bool): (n: nat)
    ensures n <= |calls|
    decreases |calls|
  {
    if calls == [] then 0
    else if stop && !Answered(w, st, calls[0].req, calls[0].answer).ok then 1
    else 1 + Attempted(w, After(w, st, calls[0].req, calls[0].answer), calls[1..], stop)
  }

  /** The outcome of document `i` when all the documents before it were ingested in order. */
  ghost function AttemptAt(w: World, st: State, calls: seq<Call>, i: nat): DocOutcome
    requires i < |calls|
  {
    Reported(calls[i].req, Answered(w, Run(w, st, calls[..i]), calls[i].req, calls[i].answer))
  }

  ghost predicate Reports(w: World, st: State, calls: seq<Call>, outcomes: seq<DocOutcome>, n: nat)
    requires n <= |calls| && n <= |outcomes|
  {
    forall i :: 0 <= i < n ==> outcomes[i] == AttemptAt(w, st, calls, i)
  }

  /** What the report must say of document `i`. */
  ghost function OutcomeAt(w: World, st: State, calls: seq<Call>, stop: bool, i: nat): DocOutcome
    requires i < |calls|
  {
    if i < Attempted(w, st, calls, stop) then AttemptAt(w, st, calls, i) else Aborted(calls[i].req)
  }

  predicate IsOk(o: DocOutcome) {
    Succeeded(o.disposition)
  }

  function Count(outcomes: seq<DocOutcome>, d: Disposition): nat {
    if outcomes == [] then 0
    else Count(outcomes[..|outcomes| - 1], d) + if outcomes[|outcomes| - 1].disposition == d then 1 else 0
  }

  function TotalObjects(outcomes: seq<DocOutcome>): nat {
    if outcomes == [] then 0
    else TotalObjects(outcomes[..|outcomes| - 1]) + |outcomes[|outcomes| - 1].objectIds|
  }

  function Summarise(offered: nat, outcomes: seq<DocOutcome>): Report {
    Report(forall o <- outcomes :: IsOk(o), offered,
           Count(outcomes, Ingested), Count(outcomes, DuplicateHeld), Count(outcomes, RefusedDoc),
           Count(outcomes, Quarantined), Count(outcomes, Degraded), TotalObjects(outcomes), outcomes)
  }

  /** The documents that came to this end. */
  ghost function Places(outcomes: seq<DocOutcome>, d: Disposition): set<int> {
    set i | 0 <= i < |outcomes| && outcomes[i].disposition == d
  }

  lemma {:induction false} PlacesSnoc(outcomes: seq<DocOutcome>, d: Disposition)
    requires outcomes != []
    ensures var n := |outcomes| - 1;
      && Places(outcomes, d) == Places(outcomes[..n], d) + (if outcomes[n].disposition == d then {n} else {})
      && n !in Places(outcomes[..n], d)
  {
  }

  lemma {:induction false} CountIsNumber(outcomes: seq<DocOutcome>, d: Disposition)
    ensures Count(outcomes, d) == |Places(outcomes, d)|
  {
    if outcomes != [] {
      hide Places;
      CountIsNumber(outcomes[..|outcomes| - 1], d);
      PlacesSnoc(outcomes, d);
    }
  }

  /** The report counts each end, and is ok exactly if every document was ingested or held. */
  ghost predicate SumsUp(r: Report, offered: nat, outcomes: seq<DocOutcome>) {
    && r.outcomes == outcomes && r.offered == offered
    && (r.ok <==> forall i :: 0 <= i < |outcomes| ==> outcomes[i].disposition in {Ingested, DuplicateHeld})
    && r.ingested == |Places(outcomes, Ingested)| && r.duplicate == |Places(outcomes, DuplicateHeld)|
    && r.refused == |Places(outcomes, RefusedDoc)| && r.quarantined == |Places(outcomes, Quarantined)|
    && r.degraded == |Places(outcomes, Degraded)|
  }

  lemma {:induction false} SummaryIsExact(offered: nat, outcomes: seq<DocOutcome>)
    ensures SumsUp(Summarise(offered, outcomes), offered, outcomes)
  {
    hide Places;
    CountIsNumber(outcomes, Ingested);
    CountIsNumber(outcomes, DuplicateHeld);
    CountIsNumber(outcomes, RefusedDoc);
    CountIsNumber(outcomes, Quarantined);
    CountIsNumber(outcomes, Degraded);
    assert forall i :: 0 <= i < |outcomes| ==> outcomes[i] in outcomes;
  }

  lemma {:induction false} SuccessIsOk(r: Outcome)
    ensures Succeeded(DispositionOf(r)) <==> r.ok
  {
  }

  lemma {:induction false} RunSnoc(w: World, st: State, calls: seq<Call>, i: nat)
    requires i < |calls|
    ensures Run(w, st, calls[..i + 1]) == After(w, Run(w, st, calls[..i]), calls[i].req, calls[i].answer)
  {
    assert calls[..i + 1][..i] == calls[..i];
  }

  lemma {:induction false} RunCons(w: World, st: State, calls: seq<Call>)
    requires calls != []
    ensures Run(w, st, calls) == Run(w, After(w, st, calls[0].req, calls[0].answer), calls[1..])
  {
    var n := |calls| - 1;
    if n > 0 {
      RunCons(w, st, calls[..n]);
      assert calls[..n][1..] == calls[1..][..n - 1];
    }
  }

  ghost predicate OkAt(w: World, st: State, calls: seq<Call>, i: nat)
    requires i < |calls|
  {
    Answered(w, Run(w, st, calls[..i]), calls[i].req, calls[i].answer).ok
  }

  /** The batch is not stopped by any of the first `n` documents. */
  ghost predicate GoesOn(w: World, st: State, calls: seq<Call>, stop: bool, n: int)
    requires n <= |calls|
  {
    stop ==> forall i :: 0 <= i < n ==> OkAt(w, st, calls, i)
  }

  /** `Attempted` is the least count that is all documents or ends in a failure on a stopping batch. */
  lemma {:induction false} AttemptedExactly(w: World, st: State, calls: seq<Call>, stop: bool, n: nat)
    requires n <= |calls|
    requires GoesOn(w, st, calls, stop, n - 1)
    requires n == |calls| || (n > 0 && stop && !OkAt(w, st, calls, n - 1))
    ensures Attempted(w, st, calls, stop) == n
    decreases |calls|
  {
    hide Answered, After;
    if calls != [] && n > 0 {
      assert calls[..0] == [];
      if n > 1 {
        assert stop ==> OkAt(w, st, calls, 0);
      }
      if !(stop && !OkAt(w, st, calls, 0)) {
        var st' := After(w, st, calls[0].req, calls[0].answer);
        forall i | 0 <= i < |calls| - 1
          ensures OkAt(w, st', calls[1..], i) == OkAt(w, st, calls, i + 1)
        {
          RunCons(w, st, calls[..i + 1]);
          assert calls[..i + 1][1..] == calls[1..][..i];
        }
        AttemptedExactly(w, st', calls[1..], stop, n - 1);
      }
    }
  }

  /** The document was quarantined exactly if it is suspect, and refused or ingested only if it could be. */
  ghost predicate IsOutcomeOf(w: World, o: DocOutcome, req: Request) {
    && o.sourceUri == req.sourceUri
    && (o.disposition == Quarantined <==> Suspect(w, req))
    && (o.disposition in {Ingested, DuplicateHeld} ==> Cuttable(w, req))
    && (o.disposition == Degraded ==> Cuttable(w, req) && o.reason.Some? && MayPass(o.reason.value))
    && (o.disposition in {RefusedDoc, Quarantined, Degraded} ==> o.objectIds == [] && o.reason.Some?)
    && (o.disposition == DuplicateHeld ==> |o.objectIds| == 1 && o.reason == Some("DUPLICATE_OBJECT"))
    && (o.disposition == Ingested ==> |o.objectIds| == |ChunksOf(w, req)| && o.reason == None)
  }

  predicate IsUnattempted(o: DocOutcome, req: Request) {
    && o.sourceUri == req.sourceUri && o.disposition == RefusedDoc && o.reason == Some("BATCH_ABORTED")
    && o.objectIds == [] && o.stagesReached == []
  }

  lemma {:induction false} AnswerIsOutcome(w: World, st: State, req: Request, a: Answer, o: DocOutcome)
    requires Tells(o, req, Answered(w, st, req, a))
    ensures IsOutcomeOf(w, o, req)
  {
    hide Answered, ChunksOf, AlreadyHeld, Mismatched, AllBuildable, HasWrongWidth, FailsToBuild;
    AdmissionIsExact(w, st, req, a);
    if Cuttable(w, req) {
      WritingIsExact(w, st, req, a);
    }
  }

  lemma {:induction false} AttemptIsOutcome(w: World, st: State, calls: seq<Call>, i: nat)
    requires i < |calls|
    ensures IsOutcomeOf(w, AttemptAt(w, st, calls, i), calls[i].req)
  {
    hide Answered, Tells, IsOutcomeOf, Reported;
    var here := Run(w, st, calls[..i]);
    ReportedTells(calls[i].req, Answered(w, here, calls[i].req, calls[i].answer));
    AnswerIsOutcome(w, here, calls[i].req, calls[i].answer, AttemptAt(w, st, calls, i));
  }

  // ---------------------------------------------------------------------------
  // The loop
  // ---------------------------------------------------------------------------

  method IngestCorpus(plane: Plane, calls: seq<Call>, stopOnFirstFailure: bool) returns (r: Report)
    modifies plane
    ensures |r.outcomes| == |calls| && r == Summarise(|calls|, r.outcomes) && SumsUp(r, |calls|, r.outcomes)
    ensures plane.Snapshot() == Run(plane.w, old(plane.Snapshot()),
                                    calls[..Attempted(plane.w, old(plane.Snapshot()), calls, stopOnFirstFailure)])
    ensures forall i :: 0 <= i < |calls| ==>
      r.outcomes[i] == OutcomeAt(plane.w, old(plane.Snapshot()), calls, stopOnFirstFailure, i)
    ensures var n := Attempted(plane.w, old(plane.Snapshot()), calls, stopOnFirstFailure);
      && plane.quarantine
         == old(plane.quarantine) + Filter((req: Request) => Suspect(plane.w, req), Requests(calls[..n]))
      && (forall i :: 0 <= i < n ==> IsOutcomeOf(plane.w, r.outcomes[i], calls[i].req))
      && (forall i :: n <= i < |calls| ==> IsUnattempted(r.outcomes[i], calls[i].req))
  {
    hide Answered, After, AttemptAt, Run, Attempted, Suspect, IsOutcomeOf, SumsUp;
    forall i | 0 <= i < |calls|
      ensures IsOutcomeOf(plane.w, AttemptAt(plane.w, plane.Snapshot(), calls, i), calls[i].req)
    {
      AttemptIsOutcome(plane.w, plane.Snapshot(), calls, i);
    }
    QuarantineIsExact(plane.w, plane.Snapshot(),
                      calls[..Attempted(plane.w, plane.Snapshot(), calls, stopOnFirstFailure)]);
    var outcomes := Attempt(plane, calls, stopOnFirstFailure);
    var n := |outcomes|;
    for i := n to |calls|
      invariant |outcomes| == i
      invariant plane.Snapshot() == Run(plane.w, old(plane.Snapshot()), calls[..n])
      invariant forall j :: 0 <= j < i ==>
        outcomes[j] == OutcomeAt(plane.w, old(plane.Snapshot()), calls, stopOnFirstFailure, j)
    {
      outcomes := outcomes + [Aborted(calls[i].req)];
    }
    r := Summarise(|calls|, outcomes);
    SummaryIsExact(|calls|, outcomes);
  }

  /** Ingest the documents in order, stopping after the first failure if asked to. */
  method Attempt(plane: Plane, calls: seq<Call>, stopOnFirstFailure: bool) returns (outcomes: seq<DocOutcome>)
    modifies plane
    ensures |outcomes| == Attempted(plane.w, old(plane.Snapshot()), calls, stopOnFirstFailure)
    ensures plane.Snapshot() == Run(plane.w, old(plane.Snapshot()), calls[..|outcomes|])
    ensures Reports(plane.w, old(plane.Snapshot()), calls, outcomes, |outcomes|)
  {
    hide Answered, After, AdmitsExactly, AnswersExactly, Stored, Suspect, Cuttable, KeepsWidth, ChunksOf, Texts;
    hide IsOk, Reported;
    ghost var w, st := plane.w, plane.Snapshot();
    outcomes := [];
    var stopped := false;
    while |outcomes| < |calls| && !stopped
      invariant |outcomes| <= |calls|
      invariant plane.Snapshot() == Run(w, st, calls[..|outcomes|])
      invariant Reports(w, st, calls, outcomes, |outcomes|)
      invariant GoesOn(w, st, calls, stopOnFirstFailure, |outcomes| - 1)
      invariant stopped <==> |outcomes| > 0 && stopOnFirstFailure && !OkAt(w, st, calls, |outcomes| - 1)
      decreases |calls| - |outcomes|
    {
      var call := calls[|outcomes|];
      var result := plane.Ingest(call.req, call.answer);
      RunSnoc(w, st, calls, |outcomes|);
      SuccessIsOk(result);
      assert result.ok == OkAt(w, st, calls, |outcomes|);
      assert Reported(call.req, result) == AttemptAt(w, st, calls, |outcomes|);
      var disposition := DispositionOf(result);
      outcomes := outcomes + [Reported(call.req, result)];
      stopped := stopOnFirstFailure && disposition != Ingested && disposition != DuplicateHeld;
    }
    AttemptedExactly(w, st, calls, stopOnFirstFailure, |outcomes|);
  }

  // ---------------------------------------------------------------------------
  // What the report says
  // ---------------------------------------------------------------------------

  /** The five counts add up to the outcomes reported, one per document offered. */
  lemma {:induction false} CountsAddUp(outcomes: seq<DocOutcome>)
    ensures Count(outcomes, Ingested) + Count(outcomes, DuplicateHeld) + Count(outcomes, RefusedDoc)
      + Count(outcomes, Quarantined) + Count(outcomes, Degraded) == |outcomes|
  {
    if outcomes != [] {
      CountsAddUp(outcomes[..|outcomes| - 1]);
    }
  }

  ghost predicate AllOk(w: World, st: State, calls: seq<Call>) {
    forall i :: 0 <= i < |calls| ==> OkAt(w, st, calls, i)
  }

  ghost predicate AllOpen(calls: seq<Call>) {
    forall i :: 0 <= i < |calls| ==> calls[i].answer.storeOpen
  }

  /** The report is a success exactly when every document was accepted in its turn. */
  lemma {:induction false} OkReportExactly(w: World, st: State, calls: seq<Call>, stop: bool, outcomes: seq<DocOutcome>)
    requires |outcomes| == |calls|
    requires forall i :: 0 <= i < |calls| ==> outcomes[i] == OutcomeAt(w, st, calls, stop, i)
    ensures Summarise(|calls|, outcomes).ok <==> AllOk(w, st, calls)
  {
    hide Answered, After;
    var n := Attempted(w, st, calls, stop);
    forall i | 0 <= i < n
      ensures IsOk(outcomes[i]) <==> OkAt(w, st, calls, i)
    {
      SuccessIsOk(Answered(w, Run(w, st, calls[..i]), calls[i].req, calls[i].answer));
    }
    forall i | n <= i < |calls|
      ensures !IsOk(outcomes[i])
    {
    }
    if AllOk(w, st, calls) {
      AttemptedExactly(w, st, calls, stop, |calls|);
    } else {
      var i :| 0 <= i < |calls| && !OkAt(w, st, calls, i);
      assert !IsOk(outcomes[i]) && outcomes[i] in outcomes;
    }
  }

  /**
   * Offering a batch again after all of it succeeded, with the store open but whatever the
   * embedder answers, finds every document a duplicate and changes nothing.
   */
  lemma {:induction false} SecondBatchIsANoOp(w: World, st: State, calls: seq<Call>, again: seq<Call>, n: nat)
    requires w.answersHashes && AllOk(w, st, calls) && AllOpen(again) && |again| == |calls| && n <= |calls|
    requires forall i :: 0 <= i < |calls| ==> again[i].req == calls[i].req
    ensures Run(w, Run(w, st, calls), again[..n]) == Run(w, st, calls)
    ensures forall i :: 0 <= i < n ==>
      Answered(w, Run(w, st, calls), again[i].req, again[i].answer).duplicate
  {
    hide Answered, After;
    var end := Run(w, st, calls);
    if n > 0 {
      var k := n - 1;
      SecondBatchIsANoOp(w, st, calls, again, k);
      assert OkAt(w, st, calls, k);
      RunSplit(w, st, calls, k + 1);
      RunSnoc(w, st, calls, k);
      SecondOfferIsANoOp(w, Run(w, st, calls[..k]), calls[k].req, calls[k].answer, calls[k + 1..], again[k].answer);
      RunSnoc(w, end, again, k);
    }
  }

  lemma {:induction false} RunSplit(w: World, st: State, calls: seq<Call>, k: nat)
    requires k <= |calls|
    ensures Run(w, st, calls) == Run(w, Run(w, st, calls[..k]), calls[k..])
  {
    hide Answered, After;
    if k < |calls| {
      var n := |calls| - 1;
      RunSplit(w, st, calls[..n], k);
      assert calls[..n][..k] == calls[..k] && calls[..n][k..] == calls[k..][..n - k];
    } else {
      assert calls[..k] == calls;
    }
  }

  /** The rows one call adds, against what its outcome says it wrote. */
  lemma {:induction false} WrittenOrHeld(w: World, st: State, req: Request, a: Answer)
    ensures var r, added := Answered(w, st, req, a), |After(w, st, req, a).rows| - |st.rows|;
      && (r.ok ==> |r.objectIds| == added + if r.duplicate then 1 else 0)
      && (!r.ok ==> r.objectIds == [] && added >= 0)
      && (!r.ok && KeepsWidth(a) ==> added == 0)
  {
    AfterAdds(w, st, req, a);
    if Answered(w, st, req, a).ok {
      SuccessStoresTheDocument(w, st, req, a);
    } else if KeepsWidth(a) {
      NoPartialWrite(w, st, req, a);
    }
  }

  ghost function RowsAdded(w: World, st: State, calls: seq<Call>, n: nat): int
    requires n <= |calls|
  {
    |Run(w, st, calls[..n]).rows| - |st.rows|
  }

  ghost predicate KeepWidth(calls: seq<Call>) {
    forall i :: 0 <= i < |calls| ==> KeepsWidth(calls[i].answer)
  }

  /** Objects written by these outcomes, not counting the one each duplicate reports. */
  function NewObjects(outcomes: seq<DocOutcome>): int {
    TotalObjects(outcomes) - Count(outcomes, DuplicateHeld)
  }

  lemma {:induction false} NewObjectsSnoc(outcomes: seq<DocOutcome>, o: DocOutcome)
    ensures NewObjects(outcomes + [o])
      == NewObjects(outcomes) + |o.objectIds| - if o.disposition == DuplicateHeld then 1 else 0
  {
    assert (outcomes + [o])[..|outcomes|] == outcomes;
  }

  /** One attempted document: what it adds against what its outcome says. */
  lemma {:induction false} AttemptAdds(w: World, st: State, calls: seq<Call>, i: nat)
    requires i < |calls|
    ensures var o, added := AttemptAt(w, st, calls, i), RowsAdded(w, st, calls, i + 1) - RowsAdded(w, st, calls, i);
      var says := |o.objectIds| - if o.disposition == DuplicateHeld then 1 else 0;
      says <= added && (KeepsWidth(calls[i].answer) ==> says == added)
  {
    hide Answered, After, Added, Run, KeepsWidth;
    var here := Run(w, st, calls[..i]);
    var r := Answered(w, here, calls[i].req, calls[i].answer);
    RunSnoc(w, st, calls, i);
    WrittenOrHeld(w, here, calls[i].req, calls[i].answer);
    AfterAdds(w, here, calls[i].req, calls[i].answer);
    DuplicateOutcome(w, here, calls[i].req, calls[i].answer);
  }

  lemma {:induction false} DuplicateOutcome(w: World, st: State, req: Request, a: Answer)
    ensures var r := Answered(w, st, req, a); DispositionOf(r) == DuplicateHeld <==> r.ok && r.duplicate
  {
    hide Answered;
  }

  lemma {:induction false} AttemptsAdd(w: World, st: State, calls: seq<Call>, outcomes: seq<DocOutcome>, n: nat)
    requires n <= |calls| && n <= |outcomes| && Reports(w, st, calls, outcomes, n)
    ensures NewObjects(outcomes[..n]) <= RowsAdded(w, st, calls, n)
    ensures KeepWidth(calls) ==> NewObjects(outcomes[..n]) == RowsAdded(w, st, calls, n)
  {
    hide Answered, After, NewObjects, KeepsWidth, AttemptAt;
    if n == 0 {
      NothingWritten(w, st, calls, outcomes);
    } else {
      AttemptsAdd(w, st, calls, outcomes, n - 1);
      AttemptAdds(w, st, calls, n - 1);
      NewObjectsSnoc(outcomes[..n - 1], outcomes[n - 1]);
      assert outcomes[..n] == outcomes[..n - 1] + [outcomes[n - 1]];
    }
  }

  lemma {:induction false} NothingWritten(w: World, st: State, calls: seq<Call>, outcomes: seq<DocOutcome>)
    ensures NewObjects(outcomes[..0]) == 0 && RowsAdded(w, st, calls, 0) == 0
  {
  }

  lemma {:induction false} AbortedAddNothing(outcomes: seq<DocOutcome>, n: nat)
    requires n <= |outcomes|
    requires forall i :: n <= i < |outcomes| ==> outcomes[i].objectIds == [] && outcomes[i].disposition == RefusedDoc
    ensures NewObjects(outcomes) == NewObjects(outcomes[..n])
  {
    hide NewObjects;
    if n < |outcomes| {
      var m := |outcomes| - 1;
      AbortedAddNothing(outcomes[..m], n);
      NewObjectsSnoc(outcomes[..m], outcomes[m]);
      assert outcomes == outcomes[..m] + [outcomes[m]] && outcomes[..m][..n] == outcomes[..n];
    } else {
      assert outcomes[..n] == outcomes;
    }
  }

  /**
   * The report's `objectsWritten` counts one for every duplicate. Less those it is the number of
   * rows the batch added, stopped or not, when the embedder keeps its width; whatever the
   * embedder does it is never more.
   */
  lemma {:induction false} ObjectsWrittenExactly(
    w: World, st: State, calls: seq<Call>, stop: bool, outcomes: seq<DocOutcome>)
    requires |outcomes| == |calls|
    requires forall i :: 0 <= i < |calls| ==> outcomes[i] == OutcomeAt(w, st, calls, stop, i)
    ensures var r, n := Summarise(|calls|, outcomes), Attempted(w, st, calls, stop);
      && r.objectsWritten - r.duplicate <= RowsAdded(w, st, calls, n)
      && (KeepWidth(calls) ==> r.objectsWritten - r.duplicate == RowsAdded(w, st, calls, n))
  {
    hide Answered, After, KeepWidth, RowsAdded, AttemptAt, Attempted;
    var n := Attempted(w, st, calls, stop);
    AttemptsAdd(w, st, calls, outcomes, n);
    AbortedAddNothing(outcomes, n);
  }
}
