/**
 * The ingestion pipeline: eleven ordered stages from a request to stored objects, over a store
 * that looks objects up by content hash and an embedding provider that may be unavailable.
 */
module Ingestion {
  import opened Prelude
  import Chunker

  type Reason = string

  type Vector = seq<real>

  datatype Request = Request(sourceUri: string, content: string, classification: nat)

  /**
   * Everything the pipeline is given: its configuration and the functions it calls. The store
   * takes vectors of the configured size. `answersHashes` tells a store that returns objects by
   * hash from one that never does.
   */
  datatype World = World(
    schemaAccepts: Request -> bool,
    isClean: string -> bool,
    normalise: string -> string,
    estimateTokens: string -> nat,
    contentHash: string -> string,
    objectRefusal: (Request, Chunker.Chunk, Vector) -> Option<Reason>,
    maxClassification: nat,
    chunkSizeTokens: int,
    chunkOverlapTokens: int,
    dimensions: nat,
    storeCeiling: nat,
    answersHashes: bool)

  /** What the embedder and the store do during one call, and the plane's degradation level at it. */
  datatype Answer = Answer(
    embedding: Embedding, storeOpen: bool, writeFails: bool, level: nat, levelReason: Option<Reason>)

  datatype Embedding = Vectors(dimensions: nat, vectors: seq<Vector>) | Unavailable

  /** What both embedders promise: every vector has the declared width. */
  predicate KeepsWidth(a: Answer) {
    a.embedding.Vectors? ==>
      forall i :: 0 <= i < |a.embedding.vectors| ==> |a.embedding.vectors[i]| == a.embedding.dimensions
  }

  datatype KnowledgeObject = KnowledgeObject(
    objectId: nat, contentHash: string, content: string, sourceUri: string, classification: nat,
    chunkIndex: int, chunkTotal: int, vector: Vector)

  datatype Entry = Entry(stage: nat, passed: bool)

  datatype Outcome = Outcome(
    ok: bool, httpStatus: nat, objectIds: seq<nat>, chunkTotal: int, duplicate: bool, reason: Option<Reason>,
    level: nat, quarantined: bool, vectorsWritten: nat, trace: seq<Entry>)

  /** `nextId` stands for the random object ids, taken as never repeating. */
  datatype State = State(
    rows: seq<KnowledgeObject>, embedded: seq<seq<string>>, quarantine: seq<Request>, nextId: nat)

  const MAX_INGESTION_CHARACTERS: nat := 1_000_000

  // ---------------------------------------------------------------------------
  // The store
  // ---------------------------------------------------------------------------

  function StoreRefusal(w: World, o: KnowledgeObject): Option<Reason> {
    if o.classification > w.storeCeiling then Some("STORE_CLASSIFICATION_REFUSED")
    else if |o.vector| > 0 && |o.vector| != w.dimensions then Some("STORE_DIMENSION_MISMATCH")
    else None
  }

  function Accepted(w: World, objects: seq<KnowledgeObject>): seq<KnowledgeObject> {
    if objects == [] then []
    else Accepted(w, objects[..|objects| - 1])
         + if StoreRefusal(w, objects[|objects| - 1]).None? then [objects[|objects| - 1]] else []
  }

  datatype StoreFailure = StoreFailure(objectId: nat, reason: Reason)

  datatype UpsertResult = UpsertResult(requested: nat, written: nat, failures: seq<StoreFailure>, ok: bool)

  /** The objects the store does not take, in order, each with its reason. */
  function Refusals(w: World, objects: seq<KnowledgeObject>): seq<StoreFailure> {
    if objects == [] then []
    else
      var last := objects[|objects| - 1];
      var refusal := StoreRefusal(w, last);
      Refusals(w, objects[..|objects| - 1]) + if refusal.Some? then [StoreFailure(last.objectId, refusal.value)] else []
  }

  /** Every object, with one reason. */
  function AllFailed(objects: seq<KnowledgeObject>, reason: Reason): seq<StoreFailure> {
    seq(|objects|, i requires 0 <= i < |objects| => StoreFailure(objects[i].objectId, reason))
  }

  /** What the store reports: refused objects first, then, if the transaction fails, all the others. */
  function Failures(w: World, objects: seq<KnowledgeObject>, a: Answer): seq<StoreFailure> {
    if !a.storeOpen then AllFailed(objects, "STORE_UNAVAILABLE")
    else Refusals(w, objects) + if a.writeFails then AllFailed(Accepted(w, objects), "STORE_WRITE_REFUSED") else []
  }

  function FirstFailure(w: World, objects: seq<KnowledgeObject>, a: Answer): Option<Reason> {
    var failures := Failures(w, objects, a);
    if failures == [] then None else Some(failures[0].reason)
  }

  function Written(w: World, objects: seq<KnowledgeObject>, a: Answer): seq<KnowledgeObject> {
    if a.storeOpen && !a.writeFails then Accepted(w, objects) else []
  }

  function Lookup(rows: seq<KnowledgeObject>, hash: string): Option<KnowledgeObject> {
    if rows == [] then None
    else if rows[0].contentHash == hash then Some(rows[0])
    else Lookup(rows[1..], hash)
  }

  predicate Holds(rows: seq<KnowledgeObject>, hash: string) {
    exists i :: 0 <= i < |rows| && rows[i].contentHash == hash
  }

  /** The store takes the object: within its ceiling, with a vector of its size or none. */
  predicate Admissible(w: World, o: KnowledgeObject) {
    o.classification <= w.storeCeiling && (o.vector == [] || |o.vector| == w.dimensions)
  }

  /** Why the store does not write an object. */
  predicate FailsAs(w: World, o: KnowledgeObject, a: Answer, reason: Reason) {
    if !a.storeOpen then reason == "STORE_UNAVAILABLE"
    else if Admissible(w, o) then a.writeFails && reason == "STORE_WRITE_REFUSED"
    else if o.classification > w.storeCeiling then reason == "STORE_CLASSIFICATION_REFUSED"
    else reason == "STORE_DIMENSION_MISMATCH"
  }

  /** Some object fails with this entry. */
  ghost predicate IsFailure(w: World, objects: seq<KnowledgeObject>, a: Answer, f: StoreFailure) {
    exists o :: o in objects && o.objectId == f.objectId && FailsAs(w, o, a, f.reason)
  }

  lemma {:induction false} AcceptedAreAdmissible(w: World, objects: seq<KnowledgeObject>)
    ensures Accepted(w, objects) == Filter((o: KnowledgeObject) => Admissible(w, o), objects)
  {
    if objects != [] {
      AcceptedAreAdmissible(w, objects[..|objects| - 1]);
    }
  }

  /** Some object is refused with this entry. */
  ghost predicate IsRefused(w: World, objects: seq<KnowledgeObject>, a: Answer, f: StoreFailure) {
    exists o :: o in objects && o.objectId == f.objectId && !Admissible(w, o) && FailsAs(w, o, a, f.reason)
  }

  lemma {:induction false} RefusedSnoc(
    w: World, objects: seq<KnowledgeObject>, o: KnowledgeObject, a: Answer, f: StoreFailure)
    ensures IsRefused(w, objects + [o], a, f)
      <==> IsRefused(w, objects, a, f) || IsRefused(w, [o], a, f)
  {
    hide Admissible, FailsAs;
    assert forall x :: x in objects + [o] <==> x in objects || x == o;
    assert o in [o];
  }

  lemma {:induction false} RefusalsAreExact(w: World, objects: seq<KnowledgeObject>, a: Answer, f: StoreFailure)
    requires a.storeOpen
    ensures f in Refusals(w, objects) <==> IsRefused(w, objects, a, f)
  {
    if objects != [] {
      hide IsRefused;
      var front, last := objects[..|objects| - 1], objects[|objects| - 1];
      RefusalsAreExact(w, front, a, f);
      assert objects == front + [last];
      RefusedSnoc(w, front, last, a, f);
      OneIsRefused(w, last, a, f);
    }
  }

  lemma {:induction false} OneIsRefused(w: World, o: KnowledgeObject, a: Answer, f: StoreFailure)
    requires a.storeOpen
    ensures IsRefused(w, [o], a, f)
       <==> StoreRefusal(w, o).Some? && f == StoreFailure(o.objectId, StoreRefusal(w, o).value)
  {
    assert o in [o];
  }

  lemma {:induction false} AllFailedAreExact(objects: seq<KnowledgeObject>, reason: Reason, f: StoreFailure)
    ensures f in AllFailed(objects, reason)
       <==> f.reason == reason && exists o :: o in objects && o.objectId == f.objectId
  {
    var failed := AllFailed(objects, reason);
    if f in failed {
      var i :| 0 <= i < |failed| && failed[i] == f;
      assert objects[i] in objects;
    }
    if f.reason == reason {
      if o :| o in objects && o.objectId == f.objectId {
        var i :| 0 <= i < |objects| && objects[i] == o;
        assert failed[i] == f;
      }
    }
  }

  /** The failures reported are exactly the objects not written, each with its reason. */
  lemma {:induction false} FailuresAreExact(w: World, objects: seq<KnowledgeObject>, a: Answer, f: StoreFailure)
    ensures f in Failures(w, objects, a) <==> IsFailure(w, objects, a, f)
  {
    hide Refusals, Accepted, AllFailed;
    if !a.storeOpen {
      AllFailedAreExact(objects, "STORE_UNAVAILABLE", f);
    } else {
      RefusalsAreExact(w, objects, a, f);
      AllFailedAreExact(Accepted(w, objects), "STORE_WRITE_REFUSED", f);
      AcceptedAreAdmissible(w, objects);
      FilterMembers((o: KnowledgeObject) => Admissible(w, o), objects);
    }
  }

  lemma {:induction false} EachIsTakenOrRefused(w: World, objects: seq<KnowledgeObject>)
    ensures |Accepted(w, objects)| + |Refusals(w, objects)| == |objects|
  {
    if objects != [] {
      EachIsTakenOrRefused(w, objects[..|objects| - 1]);
    }
  }

  /** A report without failures is a complete write, so `ok` never hides one. */
  lemma {:induction false} OkMeansNoFailure(w: World, objects: seq<KnowledgeObject>, a: Answer)
    requires objects != []
    ensures Failures(w, objects, a) == [] <==> a.storeOpen && Written(w, objects, a) == objects
  {
    EachIsTakenOrRefused(w, objects);
    if Refusals(w, objects) == [] {
      AllAccepted(w, objects);
    }
  }

  lemma {:induction false} AllAccepted(w: World, objects: seq<KnowledgeObject>)
    requires Refusals(w, objects) == []
    ensures Accepted(w, objects) == objects
  {
    if objects != [] {
      AllAccepted(w, objects[..|objects| - 1]);
    }
  }

  lemma {:induction false} LookupFinds(rows: seq<KnowledgeObject>, hash: string)
    ensures Lookup(rows, hash).Some? <==> Holds(rows, hash)
    ensures Lookup(rows, hash).Some? ==>
      Lookup(rows, hash).value in rows && Lookup(rows, hash).value.contentHash == hash
  {
    if rows != [] && rows[0].contentHash != hash {
      LookupFinds(rows[1..], hash);
      if Holds(rows, hash) {
        var i :| 0 <= i < |rows| && rows[i].contentHash == hash;
        assert rows[1..][i - 1] == rows[i];
      }
    }
  }

  // ---------------------------------------------------------------------------
  // What the stages decide
  // ---------------------------------------------------------------------------

  datatype Refusal = Refusal(stage: nat, httpStatus: nat, reason: Reason, quarantined: bool)

  function ChunksOf(w: World, req: Request): (r: seq<Chunker.Chunk>)
    ensures w.normalise(req.content) != "" ==> r != []
  {
    var text := w.normalise(req.content);
    if text == "" then []
    else Chunker.Number(Chunker.PiecesFrom(text, 0, Chunker.WindowChars(w.chunkSizeTokens),
                                           Chunker.OverlapChars(w.chunkOverlapTokens)), w.estimateTokens)
  }

  function Texts(chunks: seq<Chunker.Chunk>): seq<string> {
    seq(|chunks|, i requires 0 <= i < |chunks| => chunks[i].text)
  }

  /** Stages I-1 to I-6: they depend on the request alone. */
  ghost function Admission(w: World, req: Request): Option<Refusal> {
    if !w.schemaAccepts(req) then Some(Refusal(1, 400, "ADMISSION_MALFORMED", false))
    else if |req.content| > MAX_INGESTION_CHARACTERS then Some(Refusal(2, 422, "ADMISSION_TOO_LARGE", false))
    else if req.classification > w.maxClassification
    then Some(Refusal(3, 403, "CLASSIFICATION_CEILING_EXCEEDED", true))
    else if !w.isClean(req.content) then Some(Refusal(4, 422, "INJECTION_DETECTED", true))
    else if w.normalise(req.content) == "" then Some(Refusal(5, 422, "NORMALISATION_FAILED", false))
    else if w.chunkOverlapTokens >= w.chunkSizeTokens then Some(Refusal(6, 422, "NORMALISATION_FAILED", false))
    else if !Chunker.IsCover(ChunksOf(w, req)) then Some(Refusal(6, 422, "SCHEMA_INVALID", false))
    else None
  }

  ghost function FirstHash(w: World, req: Request): string
    requires Admission(w, req).None?
  {
    w.contentHash(ChunksOf(w, req)[0].text)
  }

  function VectorFor(e: Embedding, i: nat): Vector {
    if e.Vectors? && i < |e.vectors| then e.vectors[i] else []
  }

  function ConstructionRefusal(w: World, req: Request, chunk: Chunker.Chunk, v: Vector): Option<Reason> {
    if chunk.text == "" then Some("NORMALISATION_FAILED") else w.objectRefusal(req, chunk, v)
  }

  function Object(w: World, req: Request, chunk: Chunker.Chunk, v: Vector, id: nat): KnowledgeObject {
    KnowledgeObject(id, w.contentHash(chunk.text), chunk.text, req.sourceUri, req.classification,
                    chunk.index, chunk.total, v)
  }

  function Objects(
    w: World, req: Request, chunks: seq<Chunker.Chunk>, e: Embedding, nextId: nat): (r: seq<KnowledgeObject>)
    ensures |r| == |chunks|
  {
    seq(|chunks|, i requires 0 <= i < |chunks| => Object(w, req, chunks[i], VectorFor(e, i), nextId + i))
  }

  /** The first chunk no object can be made of. */
  function FirstUnbuilt(w: World, req: Request, chunks: seq<Chunker.Chunk>, e: Embedding, i: nat): Option<Reason>
    requires i <= |chunks|
    decreases |chunks| - i
  {
    if i == |chunks| then None
    else
      var refusal := ConstructionRefusal(w, req, chunks[i], VectorFor(e, i));
      if refusal.Some? then refusal else FirstUnbuilt(w, req, chunks, e, i + 1)
  }

  function Ids(first: nat, n: nat): seq<nat> {
    seq(n, i requires 0 <= i < n => first + i)
  }

  function OrElse(r: Option<Reason>, default: Reason): Reason {
    if r.Some? then r.value else default
  }

  /** Stages I-9 to I-11, on a document the store does not hold yet. */
  function Writing(w: World, req: Request, chunks: seq<Chunker.Chunk>, a: Answer, nextId: nat): Option<Refusal> {
    var unbuilt := FirstUnbuilt(w, req, chunks, a.embedding, 0);
    var failure := FirstFailure(w, Objects(w, req, chunks, a.embedding, nextId), a);
    if a.embedding.Vectors? && a.embedding.dimensions != w.dimensions
    then Some(Refusal(9, 422, "EMBEDDING_DIMENSION_MISMATCH", false))
    else if unbuilt.Some? then Some(Refusal(10, 422, unbuilt.value, false))
    else if a.level >= 2 then Some(Refusal(11, 503, OrElse(a.levelReason, "STORE_UNAVAILABLE"), false))
    else if failure.Some?
    then Some(Refusal(11, if failure.value == "STORE_CLASSIFICATION_REFUSED" then 403 else 503, failure.value, false))
    else None
  }

  /** Stage I-9 refuses a mismatch, and nothing else. */
  lemma {:induction false} MismatchIsStageNine(
    w: World, req: Request, chunks: seq<Chunker.Chunk>, a: Answer, nextId: nat)
    ensures var writing := Writing(w, req, chunks, a, nextId);
      var mismatch := a.embedding.Vectors? && a.embedding.dimensions != w.dimensions;
      && (mismatch ==> writing == Some(Refusal(9, 422, "EMBEDDING_DIMENSION_MISMATCH", false)))
      && (writing.Some? && writing.value.stage == 9 ==> mismatch)
  {
    hide FirstUnbuilt, FirstFailure, Objects;
  }

  function Passed(n: nat): seq<Entry> {
    seq(n, i requires 0 <= i < n => Entry(i + 1, true))
  }

  function Refused(a: Answer, r: Refusal): Outcome {
    Outcome(false, r.httpStatus, [], 0, false, Some(r.reason), a.level, r.quarantined, 0,
            Passed(if r.stage == 0 then 0 else r.stage - 1) + [Entry(r.stage, false)])
  }

  function Duplicate(a: Answer, o: KnowledgeObject): Outcome {
    Outcome(true, 200, [o.objectId], o.chunkTotal, true, Some("DUPLICATE_OBJECT"), a.level, false, 0, Passed(8))
  }

  function Created(a: Answer, first: nat, n: nat): Outcome {
    Outcome(true, 201, Ids(first, n), n, false, None, if a.embedding.Vectors? then a.level else 1, false,
            if a.embedding.Vectors? then n else 0, Passed(11))
  }

  function Found(w: World, st: State, a: Answer, hash: string): Option<KnowledgeObject> {
    if w.answersHashes && a.storeOpen then Lookup(st.rows, hash) else None
  }

  /** The answer the pipeline must give. */
  ghost function Answered(w: World, st: State, req: Request, a: Answer): Outcome {
    var admission := Admission(w, req);
    if admission.Some? then Refused(a, admission.value)
    else
      var found := Found(w, st, a, FirstHash(w, req));
      if found.Some? then Duplicate(a, found.value)
      else
        var chunks := ChunksOf(w, req);
        var writing := Writing(w, req, chunks, a, st.nextId);
        if writing.Some? then Refused(a, writing.value) else Created(a, st.nextId, |chunks|)
  }

  /** The state it must leave. */
  ghost function After(w: World, st: State, req: Request, a: Answer): State {
    var admission := Admission(w, req);
    if admission.Some? then
      if admission.value.quarantined then st.(quarantine := st.quarantine + [req]) else st
    else if Found(w, st, a, FirstHash(w, req)).Some? then st
    else
      var chunks := ChunksOf(w, req);
      var writing := Writing(w, req, chunks, a, st.nextId);
      var sent := st.(embedded := st.embedded + [Texts(chunks)]);
      if writing.Some? && writing.value.stage == 9 then sent
      else
        sent.(nextId := st.nextId + |chunks|,
              rows := if (writing.Some? && writing.value.stage == 10) || a.level >= 2 then st.rows
                      else st.rows + Written(w, Objects(w, req, chunks, a.embedding, st.nextId), a))
  }

  // ---------------------------------------------------------------------------
  // What the answers mean
  // ---------------------------------------------------------------------------

  /** The schema takes the request, and it is not too long. */
  predicate Readable(w: World, req: Request) {
    w.schemaAccepts(req) && |req.content| <= 1_000_000
  }

  /** Kept for a human to look at: readable, but above the ceiling or found unclean. */
  predicate Suspect(w: World, req: Request) {
    Readable(w, req) && (req.classification > w.maxClassification || !w.isClean(req.content))
  }

  predicate OverlapTooLarge(w: World) {
    w.chunkOverlapTokens >= w.chunkSizeTokens
  }

  /** Nothing stands in the way of cutting the document up. */
  predicate Cuttable(w: World, req: Request) {
    && Readable(w, req) && !Suspect(w, req)
    && w.normalise(req.content) != "" && !OverlapTooLarge(w)
  }

  /** A refusal at this stage: nothing is reported as stored. */
  predicate IsRefusal(r: Outcome, stage: nat, httpStatus: nat, reason: Reason) {
    && !r.ok && !r.duplicate && r.httpStatus == httpStatus && r.reason == Some(reason)
    && r.objectIds == [] && r.chunkTotal == 0 && r.vectorsWritten == 0
    && |r.trace| == stage && stage > 0 && r.trace[stage - 1] == Entry(stage, false)
  }

  /** Stages I-1 to I-6: each refusal exactly on its condition, and quarantine exactly for suspects. */
  predicate AdmitsExactly(w: World, req: Request, r: Outcome) {
    && (!w.schemaAccepts(req) <==> IsRefusal(r, 1, 400, "ADMISSION_MALFORMED"))
    && (w.schemaAccepts(req) && |req.content| > 1_000_000 <==> IsRefusal(r, 2, 422, "ADMISSION_TOO_LARGE"))
    && (Readable(w, req) && req.classification > w.maxClassification
        <==> IsRefusal(r, 3, 403, "CLASSIFICATION_CEILING_EXCEEDED"))
    && (Readable(w, req) && req.classification <= w.maxClassification && !w.isClean(req.content)
        <==> IsRefusal(r, 4, 422, "INJECTION_DETECTED"))
    && (Readable(w, req) && !Suspect(w, req) && w.normalise(req.content) == ""
        <==> IsRefusal(r, 5, 422, "NORMALISATION_FAILED"))
    && (Readable(w, req) && !Suspect(w, req) && w.normalise(req.content) != "" && OverlapTooLarge(w)
        <==> IsRefusal(r, 6, 422, "NORMALISATION_FAILED"))
    && (|r.trace| <= 6 <==> !Cuttable(w, req))
    && (r.quarantined <==> Suspect(w, req))
  }

  /** Only a created document's level may differ from the plane's. */
  predicate ShowsLevel(a: Answer, r: Outcome) {
    !r.ok || r.duplicate || a.embedding.Vectors? ==> r.level == a.level
  }

  lemma {:induction false} CuttableIsAdmitted(w: World, req: Request)
    ensures Cuttable(w, req) <==> Admission(w, req).None?
  {
    hide Chunker.IsCover, ChunksOf;
    NoGapIsEverFound(w, req);
  }

  lemma {:induction false} RefusedEarly(w: World, st: State, req: Request, a: Answer)
    ensures Admission(w, req).Some? ==>
      && Answered(w, st, req, a) == Refused(a, Admission(w, req).value)
      && After(w, st, req, a)
         == if Admission(w, req).value.quarantined then st.(quarantine := st.quarantine + [req]) else st
  {
    hide Admission, Refused;
  }

  lemma {:induction false} AdmissionIsExact(w: World, st: State, req: Request, a: Answer)
    ensures AdmitsExactly(w, req, Answered(w, st, req, a)) && ShowsLevel(a, Answered(w, st, req, a))
  {
    hide Chunker.IsCover, ChunksOf, Lookup, Writing;
    NoGapIsEverFound(w, req);
    StagesOfRefusals(w, st, req, a);
  }

  /** An open store that answers hashes holds the one of the first chunk. */
  ghost predicate AlreadyHeld(w: World, st: State, req: Request, a: Answer)
    requires Cuttable(w, req)
  {
    w.answersHashes && a.storeOpen && Holds(st.rows, w.contentHash(ChunksOf(w, req)[0].text))
  }

  predicate Mismatched(w: World, a: Answer) {
    a.embedding.Vectors? && a.embedding.dimensions != w.dimensions
  }

  /** No object can be made of this chunk, for this reason. */
  predicate Unbuildable(w: World, req: Request, chunk: Chunker.Chunk, v: Vector, reason: Reason) {
    if chunk.text == "" then reason == "NORMALISATION_FAILED" else w.objectRefusal(req, chunk, v) == Some(reason)
  }

  /** Chunk `i` is the first no object can be made of. */
  ghost predicate FailsToBuild(
    w: World, req: Request, chunks: seq<Chunker.Chunk>, e: Embedding, i: nat, reason: Reason)
  {
    && i < |chunks| && Unbuildable(w, req, chunks[i], VectorFor(e, i), reason)
    && forall j, other :: 0 <= j < i ==> !Unbuildable(w, req, chunks[j], VectorFor(e, j), other)
  }

  ghost predicate AllBuildable(w: World, req: Request, chunks: seq<Chunker.Chunk>, e: Embedding) {
    forall i, reason :: 0 <= i < |chunks| ==> !Unbuildable(w, req, chunks[i], VectorFor(e, i), reason)
  }

  ghost predicate HasWrongWidth(w: World, e: Embedding, n: nat) {
    exists i :: 0 <= i < n && VectorFor(e, i) != [] && |VectorFor(e, i)| != w.dimensions
  }

  /** What the answer is when the store is to write all objects of the document. */
  ghost predicate StoresExactly(w: World, st: State, req: Request, a: Answer, n: nat, r: Outcome) {
    if a.level >= 2 then
      IsRefusal(r, 11, 503, if a.levelReason.Some? then a.levelReason.value else "STORE_UNAVAILABLE")
    else if !a.storeOpen then IsRefusal(r, 11, 503, "STORE_UNAVAILABLE")
    else if req.classification > w.storeCeiling then IsRefusal(r, 11, 403, "STORE_CLASSIFICATION_REFUSED")
    else if HasWrongWidth(w, a.embedding, n) then IsRefusal(r, 11, 503, "STORE_DIMENSION_MISMATCH")
    else if a.writeFails then IsRefusal(r, 11, 503, "STORE_WRITE_REFUSED")
    else IsCreated(r, st.nextId, n, a)
  }

  predicate IsCreated(r: Outcome, first: nat, n: nat, a: Answer) {
    && r.ok && !r.duplicate && r.httpStatus == 201 && r.reason == None && !r.quarantined && |r.trace| == 11
    && |r.objectIds| == r.chunkTotal == n && (forall i :: 0 <= i < n ==> r.objectIds[i] == first + i)
    && r.vectorsWritten == (if a.embedding.Vectors? then n else 0)
    && r.level == (if a.embedding.Vectors? then a.level else 1)
  }

  /** The answer names a stored object of that hash. */
  ghost predicate IsDuplicateOf(r: Outcome, rows: seq<KnowledgeObject>, hash: string) {
    && r.ok && r.duplicate && r.httpStatus == 200 && r.reason == Some("DUPLICATE_OBJECT") && !r.quarantined
    && |r.trace| == 8 && r.vectorsWritten == 0
    && exists o :: o in rows && o.contentHash == hash && r.objectIds == [o.objectId] && r.chunkTotal == o.chunkTotal
  }

  /** Stages I-7 to I-11: each outcome exactly on its condition. */
  ghost predicate AnswersExactly(w: World, st: State, req: Request, a: Answer, r: Outcome)
    requires Cuttable(w, req)
  {
    var chunks := ChunksOf(w, req);
    && (r.duplicate <==> AlreadyHeld(w, st, req, a))
    && (r.duplicate ==> IsDuplicateOf(r, st.rows, w.contentHash(chunks[0].text)))
    && (!r.duplicate && Mismatched(w, a) <==> IsRefusal(r, 9, 422, "EMBEDDING_DIMENSION_MISMATCH"))
    && (!r.duplicate && !Mismatched(w, a) ==>
          if AllBuildable(w, req, chunks, a.embedding) then StoresExactly(w, st, req, a, |chunks|, r)
          else exists i, reason ::
                 FailsToBuild(w, req, chunks, a.embedding, i, reason) && IsRefusal(r, 10, 422, reason))
  }

  lemma {:induction false} FirstUnbuiltIsExact(
    w: World, req: Request, chunks: seq<Chunker.Chunk>, e: Embedding, i: nat)
    requires i <= |chunks|
    requires forall j, reason :: 0 <= j < i ==> !Unbuildable(w, req, chunks[j], VectorFor(e, j), reason)
    ensures var r := FirstUnbuilt(w, req, chunks, e, i);
      && (r.None? <==> AllBuildable(w, req, chunks, e))
      && (r.Some? ==> exists k :: FailsToBuild(w, req, chunks, e, k, r.value))
    decreases |chunks| - i
  {
    if i < |chunks| {
      var refusal := ConstructionRefusal(w, req, chunks[i], VectorFor(e, i));
      if refusal.Some? {
        assert FailsToBuild(w, req, chunks, e, i, refusal.value);
      } else {
        FirstUnbuiltIsExact(w, req, chunks, e, i + 1);
      }
    }
  }

  lemma {:induction false} RefusalsAllSay(w: World, objects: seq<KnowledgeObject>, reason: Reason)
    requires forall o :: o in objects ==> StoreRefusal(w, o) in {None, Some(reason)}
    ensures forall i :: 0 <= i < |Refusals(w, objects)| ==> Refusals(w, objects)[i].reason == reason
    ensures Refusals(w, objects) == [] <==> forall o :: o in objects ==> StoreRefusal(w, o).None?
  {
    if objects != [] {
      var front, last := objects[..|objects| - 1], objects[|objects| - 1];
      assert objects == front + [last];
      RefusalsAllSay(w, front, reason);
    }
  }

  /** The failure reported first, of objects of one document. */
  lemma {:induction false} FirstFailureIsExact(
    w: World, req: Request, chunks: seq<Chunker.Chunk>, a: Answer, first: nat)
    requires chunks != []
    ensures FirstFailure(w, Objects(w, req, chunks, a.embedding, first), a) ==
      if !a.storeOpen then Some("STORE_UNAVAILABLE")
      else if req.classification > w.storeCeiling then Some("STORE_CLASSIFICATION_REFUSED")
      else if HasWrongWidth(w, a.embedding, |chunks|) then Some("STORE_DIMENSION_MISMATCH")
      else if a.writeFails then Some("STORE_WRITE_REFUSED") else None
  {
    hide Refusals, Accepted, VectorFor;
    var objects := Objects(w, req, chunks, a.embedding, first);
    assert forall i :: 0 <= i < |objects| ==> objects[i] in objects;
    if a.storeOpen {
      if req.classification > w.storeCeiling {
        RefusalsAllSay(w, objects, "STORE_CLASSIFICATION_REFUSED");
        assert StoreRefusal(w, objects[0]).Some? && objects[0] in objects;
      } else {
        RefusalsAllSay(w, objects, "STORE_DIMENSION_MISMATCH");
        if i :| 0 <= i < |chunks| && VectorFor(a.embedding, i) != [] && |VectorFor(a.embedding, i)| != w.dimensions {
          assert StoreRefusal(w, objects[i]).Some? && objects[i] in objects;
        } else {
          AllAreTaken(w, objects);
          AllAccepted(w, objects);
          assert objects != [];
        }
      }
    }
  }

  /** Each row is the object of its chunk, under the id answered for it. */
  ghost predicate Stored(w: World, req: Request, a: Answer, ids: seq<nat>, rows: seq<KnowledgeObject>) {
    var chunks := ChunksOf(w, req);
    && |rows| == |ids| == |chunks|
    && forall i :: 0 <= i < |chunks| ==>
         && rows[i].objectId == ids[i] && rows[i].content == chunks[i].text
         && rows[i].contentHash == w.contentHash(chunks[i].text) && rows[i].sourceUri == req.sourceUri
         && rows[i].classification == req.classification && rows[i].chunkIndex == i && rows[i].chunkTotal == |chunks|
         && rows[i].vector == (if a.embedding.Vectors? && i < |a.embedding.vectors| then a.embedding.vectors[i] else [])
  }

  /** Exactly what happens to a document that can be cut up. */
  lemma {:induction false} WritingIsExact(w: World, st: State, req: Request, a: Answer)
    requires Cuttable(w, req)
    ensures AnswersExactly(w, st, req, a, Answered(w, st, req, a))
  {
    hide AnswersExactly, Answered, Cuttable;
    if AlreadyHeld(w, st, req, a) {
      HeldIsExact(w, st, req, a);
    } else {
      NewIsExact(w, st, req, a);
    }
  }

  lemma {:induction false} NewIsExact(w: World, st: State, req: Request, a: Answer)
    requires Cuttable(w, req) && !AlreadyHeld(w, st, req, a)
    ensures AnswersExactly(w, st, req, a, Answered(w, st, req, a))
  {
    hide Admission, ChunksOf, FirstUnbuilt, FirstFailure, Objects, Lookup, AllBuildable, HasWrongWidth, FailsToBuild;
    var chunks := ChunksOf(w, req);
    CuttableIsAdmitted(w, req);
    AdmittedHasChunks(w, req);
    LookupFinds(st.rows, FirstHash(w, req));
    FirstUnbuiltIsExact(w, req, chunks, a.embedding, 0);
    FirstFailureIsExact(w, req, chunks, a, st.nextId);
  }

  lemma {:induction false} HeldIsExact(w: World, st: State, req: Request, a: Answer)
    requires Cuttable(w, req) && AlreadyHeld(w, st, req, a)
    ensures AnswersExactly(w, st, req, a, Answered(w, st, req, a))
  {
    hide Admission, ChunksOf, Writing, Lookup;
    CuttableIsAdmitted(w, req);
    AdmittedHasChunks(w, req);
    LookupFinds(st.rows, FirstHash(w, req));
  }

  // ---------------------------------------------------------------------------
  // The pipeline
  // ---------------------------------------------------------------------------

  class Plane {
    const w: World
    var rows: seq<KnowledgeObject>
    var embedded: seq<seq<string>>
    var quarantine: seq<Request>
    var nextId: nat

    constructor (w: World)
      ensures this.w == w && Snapshot() == State([], [], [], 0)
    {
      this.w := w;
      rows, embedded, quarantine, nextId := [], [], [], 0;
    }

    ghost function Snapshot(): State
      reads this
    {
      State(rows, embedded, quarantine, nextId)
    }

    /** An object with that hash if there is one, on an open store that answers hashes; nothing otherwise. */
    method GetByHash(hash: string, a: Answer) returns (held: Option<KnowledgeObject>)
      ensures held.Some? <==> w.answersHashes && a.storeOpen && Holds(rows, hash)
      ensures held.Some? ==> held.value in rows && held.value.contentHash == hash
      ensures held == Found(w, Snapshot(), a, hash)
    {
      LookupFinds(rows, hash);
      held := if w.answersHashes && a.storeOpen then Lookup(rows, hash) else None;
    }

    /** All admissible objects are written in one transaction; every other one is reported, in order. */
    method Upsert(objects: seq<KnowledgeObject>, a: Answer) returns (r: UpsertResult)
      modifies this`rows
      ensures rows == old(rows) + Written(w, objects, a)
      ensures r.requested == |objects| && r.written == |rows| - |old(rows)| && r.failures == Failures(w, objects, a)
      ensures r.ok <==> a.storeOpen && r.failures == [] && r.written == |objects|
      ensures forall f :: f in r.failures <==> IsFailure(w, objects, a, f)
      ensures a.storeOpen && !a.writeFails ==>
        rows == old(rows) + Filter((o: KnowledgeObject) => Admissible(w, o), objects)
      ensures !a.storeOpen || a.writeFails ==> rows == old(rows)
    {
      hide IsFailure;
      forall f
        ensures f in Failures(w, objects, a) <==> IsFailure(w, objects, a, f)
      {
        FailuresAreExact(w, objects, a, f);
      }
      AcceptedAreAdmissible(w, objects);
      if !a.storeOpen {
        return UpsertResult(|objects|, 0, AllFailed(objects, "STORE_UNAVAILABLE"), false);
      }
      var failures := [];
      var admissible := [];
      for i := 0 to |objects|
        invariant rows == old(rows)
        invariant admissible == Accepted(w, objects[..i])
        invariant failures == Refusals(w, objects[..i])
      {
        assert objects[..i + 1][..i] == objects[..i];
        var refusal := StoreRefusal(w, objects[i]);
        if refusal.Some? {
          failures := failures + [StoreFailure(objects[i].objectId, refusal.value)];
        } else {
          admissible := admissible + [objects[i]];
        }
      }
      assert objects[..|objects|] == objects;
      var written := 0;
      if a.writeFails {
        failures := failures + AllFailed(admissible, "STORE_WRITE_REFUSED");
      } else {
        rows := rows + admissible;
        written := |admissible|;
      }
      r := UpsertResult(|objects|, written, failures, |failures| == 0 && written == |objects|);
    }

    /** Build one object per chunk, stopping at the first that cannot be built. */
    method Construct(req: Request, chunks: seq<Chunker.Chunk>, e: Embedding)
      returns (objects: seq<KnowledgeObject>, refusal: Option<Reason>)
      modifies this`nextId
      ensures nextId == old(nextId) + |chunks|
      ensures refusal == FirstUnbuilt(w, req, chunks, e, 0)
      ensures refusal.None? ==> objects == Objects(w, req, chunks, e, old(nextId))
    {
      objects, refusal := [], None;
      var first := nextId;
      nextId := first + |chunks|;
      for i := 0 to |chunks|
        invariant objects == Objects(w, req, chunks[..i], e, first)
        invariant refusal.None?
        invariant FirstUnbuilt(w, req, chunks, e, 0) == FirstUnbuilt(w, req, chunks, e, i)
      {
        refusal := ConstructionRefusal(w, req, chunks[i], VectorFor(e, i));
        if refusal.Some? {
          return;
        }
        objects := objects + [Object(w, req, chunks[i], VectorFor(e, i), first + i)];
      }
      assert chunks[..|chunks|] == chunks;
    }

    method Ingest(req: Request, a: Answer) returns (r: Outcome)
      modifies this
      ensures r == Answered(w, old(Snapshot()), req, a)
      ensures Snapshot() == After(w, old(Snapshot()), req, a)
      ensures AdmitsExactly(w, req, r) && ShowsLevel(a, r)
      ensures Cuttable(w, req) ==> AnswersExactly(w, old(Snapshot()), req, a, r)
      ensures quarantine == old(quarantine) + if Suspect(w, req) then [req] else []
      ensures embedded == old(embedded) + if Cuttable(w, req) && !r.duplicate then [Texts(ChunksOf(w, req))] else []
      ensures r.ok && !r.duplicate ==>
        |rows| == |old(rows)| + r.chunkTotal && old(rows) <= rows && Stored(w, req, a, r.objectIds, rows[|old(rows)|..])
      ensures KeepsWidth(a) && (!r.ok || r.duplicate) ==> rows == old(rows)
    {
      hide AdmitsExactly, AnswersExactly, Suspect, After, Answered, KeepsWidth, Stored, Added;
      hide Cuttable, ChunksOf;
      ghost var st := Snapshot();
      AdmissionIsExact(w, st, req, a);
      QuarantineGrows(w, st, req, a);
      if Cuttable(w, req) {
        WritingIsExact(w, st, req, a);
      }
      EmbeddedGrows(w, st, req, a);
      RowsGrow(w, st, req, a);
      r := RunStages(req, a);
    }

    /** Stages I-1 to I-4, and then the others. */
    method RunStages(req: Request, a: Answer) returns (r: Outcome)
      modifies this
      ensures r == Answered(w, old(Snapshot()), req, a)
      ensures Snapshot() == After(w, old(Snapshot()), req, a)
    {
      hide Answered, After, ChunksOf, Refused;
      RefusedEarly(w, Snapshot(), req, a);
      var trace: seq<Entry> := [];
      if !w.schemaAccepts(req) {
        return Refuse(a, 1, 400, "ADMISSION_MALFORMED", false, trace);
      }
      trace := trace + [Entry(1, true)];
      if |req.content| > MAX_INGESTION_CHARACTERS {
        return Refuse(a, 2, 422, "ADMISSION_TOO_LARGE", false, trace);
      }
      trace := trace + [Entry(2, true)];
      if req.classification > w.maxClassification {
        quarantine := quarantine + [req];
        return Refuse(a, 3, 403, "CLASSIFICATION_CEILING_EXCEEDED", true, trace);
      }
      trace := trace + [Entry(3, true)];
      if !w.isClean(req.content) {
        quarantine := quarantine + [req];
        return Refuse(a, 4, 422, "INJECTION_DETECTED", true, trace);
      }
      r := CutUp(req, a, trace + [Entry(4, true)]);
    }

    /** Stages I-5 to I-7, of a clean request. */
    method CutUp(req: Request, a: Answer, soFar: seq<Entry>) returns (r: Outcome)
      requires Readable(w, req) && !Suspect(w, req) && soFar == Passed(4)
      modifies this
      ensures r == Answered(w, old(Snapshot()), req, a)
      ensures Snapshot() == After(w, old(Snapshot()), req, a)
    {
      hide Answered, After, Refused, Chunker.IsCover, Chunker.IsChunked, Chunker.PiecesFrom, Chunker.Number;
      RefusedEarly(w, Snapshot(), req, a);
      var trace := soFar;
      var text := w.normalise(req.content);
      if text == "" {
        return Refuse(a, 5, 422, "NORMALISATION_FAILED", false, trace);
      }
      trace := trace + [Entry(5, true)];
      var chunking := Chunker.ChunkText(req.content, w.normalise, w.estimateTokens,
                                       w.chunkSizeTokens, w.chunkOverlapTokens);
      if chunking.Failure? {
        return Refuse(a, 6, 422, "NORMALISATION_FAILED", false, trace);
      }
      var chunks := chunking.value;
      var cover := Chunker.IsGaplessCover(chunks);
      if !cover {
        return Refuse(a, 6, 422, "SCHEMA_INVALID", false, trace);
      }
      trace := trace + [Entry(6, true)] + [Entry(7, true)];
      r := IngestChunks(req, chunks, a, trace);
    }

    /** Stages I-8 to I-11. */
    method IngestChunks(req: Request, chunks: seq<Chunker.Chunk>, a: Answer, soFar: seq<Entry>) returns (r: Outcome)
      requires Admission(w, req).None? && chunks == ChunksOf(w, req) && chunks != [] && soFar == Passed(7)
      modifies this
      ensures r == Answered(w, old(Snapshot()), req, a)
      ensures Snapshot() == After(w, old(Snapshot()), req, a)
    {
      hide Writing, Written, Created, Objects, Lookup, Refused, Admission, ChunksOf;
      MismatchIsStageNine(w, req, chunks, a, nextId);
      var trace := soFar;
      var existing := GetByHash(w.contentHash(chunks[0].text), a);
      trace := trace + [Entry(8, true)];
      assert trace == Passed(8);
      if existing.Some? {
        var o := existing.value;
        return Outcome(true, 200, [o.objectId], o.chunkTotal, true, Some("DUPLICATE_OBJECT"), a.level, false, 0, trace);
      }
      embedded := embedded + [Texts(chunks)];
      if a.embedding.Vectors? && a.embedding.dimensions != w.dimensions {
        return Refuse(a, 9, 422, "EMBEDDING_DIMENSION_MISMATCH", false, trace);
      }
      trace := trace + [Entry(9, true)];
      assert trace == Passed(9);
      r := Persist(req, chunks, a, trace);
    }

    /** Stages I-10 and I-11. */
    method Persist(req: Request, chunks: seq<Chunker.Chunk>, a: Answer, soFar: seq<Entry>) returns (r: Outcome)
      requires chunks != [] && soFar == Passed(9)
      requires a.embedding.Vectors? ==> a.embedding.dimensions == w.dimensions
      modifies this`rows, this`nextId
      ensures var writing := Writing(w, req, chunks, a, old(nextId));
        && r == (if writing.Some? then Refused(a, writing.value) else Created(a, old(nextId), |chunks|))
        && rows == if (writing.Some? && writing.value.stage == 10) || a.level >= 2 then old(rows)
                   else old(rows) + Written(w, Objects(w, req, chunks, a.embedding, old(nextId)), a)
      ensures nextId == old(nextId) + |chunks|
    {
      hide Failures, Written, Accepted, Refusals, FirstUnbuilt, Objects;
      var first := nextId;
      var objects, unbuilt := Construct(req, chunks, a.embedding);
      if unbuilt.Some? {
        return Refuse(a, 10, 422, unbuilt.value, false, soFar);
      }
      var trace := soFar + [Entry(10, true)];
      if a.level >= 2 {
        return Refuse(a, 11, 503, OrElse(a.levelReason, "STORE_UNAVAILABLE"), false, trace);
      }
      var upserted := Upsert(objects, a);
      OkMeansNoFailure(w, objects, a);
      if !upserted.ok {
        var reason := upserted.failures[0].reason;
        var status := if reason == "STORE_CLASSIFICATION_REFUSED" then 403 else 503;
        return Refuse(a, 11, status, reason, false, trace);
      }
      trace := trace + [Entry(11, true)];
      return Outcome(true, 201, Ids(first, |objects|), |objects|, false, None,
                     if a.embedding.Vectors? then a.level else 1, false,
                     if a.embedding.Vectors? then |objects| else 0, trace);
    }

    /** The one shape of every refusal. */
    function Refuse(
      a: Answer, stage: nat, status: nat, reason: Reason, quarantined: bool, trace: seq<Entry>): (r: Outcome)
      ensures stage > 0 && trace == Passed(stage - 1) ==> r == Refused(a, Refusal(stage, status, reason, quarantined))
    {
      Outcome(false, status, [], 0, false, Some(reason), a.level, quarantined, 0, trace + [Entry(stage, false)])
    }
  }

  // ---------------------------------------------------------------------------
  // The order of the stages
  // ---------------------------------------------------------------------------

  /** The stages 1..n in order, each passed, but the last for a refusal. */
  predicate InOrder(trace: seq<Entry>, ok: bool) {
    && trace != []
    && forall i :: 0 <= i < |trace| ==> trace[i] == Entry(i + 1, ok || i < |trace| - 1)
  }

  lemma {:induction false} StagesRunInOrder(w: World, st: State, req: Request, a: Answer)
    ensures var r := Answered(w, st, req, a);
      && InOrder(r.trace, r.ok)
      && (r.ok ==> |r.trace| == if r.duplicate then 8 else 11)
  {
    hide Admission, Writing, ChunksOf, Lookup;
    StagesOfRefusals(w, st, req, a);
  }

  lemma {:induction false} StagesOfRefusals(w: World, st: State, req: Request, a: Answer)
    ensures Admission(w, req).Some? ==> 1 <= Admission(w, req).value.stage <= 6
    ensures var writing := Writing(w, req, ChunksOf(w, req), a, st.nextId);
      writing.Some? ==> 9 <= writing.value.stage <= 11 && !writing.value.quarantined
  {
    hide ChunksOf, FirstUnbuilt, FirstFailure, Objects, Chunker.IsCover;
  }

  /** A chunk set the chunker produced is never refused as a gap. */
  lemma {:induction false} NoGapIsEverFound(w: World, req: Request)
    ensures Admission(w, req) != Some(Refusal(6, 422, "SCHEMA_INVALID", false))
  {
    var text := w.normalise(req.content);
    if text != "" {
      Chunker.ChunksAreCover(Chunker.PiecesFrom(text, 0, Chunker.WindowChars(w.chunkSizeTokens),
                                                Chunker.OverlapChars(w.chunkOverlapTokens)), w.estimateTokens);
    }
  }

  // ---------------------------------------------------------------------------
  // Over whole runs: nothing above the ceiling is embedded or stored
  // ---------------------------------------------------------------------------

  datatype Call = Call(req: Request, answer: Answer)

  ghost function Run(w: World, st: State, calls: seq<Call>): State {
    if calls == [] then st
    else
      var last := calls[|calls| - 1];
      After(w, Run(w, st, calls[..|calls| - 1]), last.req, last.answer)
  }

  /** Text an embedder may see: a chunk of a request within the ceiling that the screen found clean. */
  ghost predicate MaySend(w: World, calls: seq<Call>, texts: seq<string>) {
    exists i :: 0 <= i < |calls| && MayBeSentFor(w, calls[i].req, texts)
  }

  ghost predicate MayBeSentFor(w: World, req: Request, texts: seq<string>) {
    req.classification <= w.maxClassification && w.isClean(req.content) && texts == Texts(ChunksOf(w, req))
  }

  ghost predicate Sound(w: World, o: KnowledgeObject) {
    && o.classification <= w.maxClassification && o.classification <= w.storeCeiling
    && o.content != "" && o.contentHash == w.contentHash(o.content)
    && (o.vector == [] || |o.vector| == w.dimensions)
  }

  ghost predicate Safe(w: World, calls: seq<Call>, st: State) {
    && (forall i :: 0 <= i < |st.rows| ==> Sound(w, st.rows[i]) && st.rows[i].objectId < st.nextId)
    && (forall i, j :: 0 <= i < j < |st.rows| ==> st.rows[i].objectId != st.rows[j].objectId)
    && (forall i :: 0 <= i < |st.embedded| ==> MaySend(w, calls, st.embedded[i]))
  }

  lemma {:induction false} BuiltAreNotEmpty(w: World, req: Request, chunks: seq<Chunker.Chunk>, e: Embedding, i: nat)
    requires i <= |chunks| && FirstUnbuilt(w, req, chunks, e, i).None?
    ensures forall j :: i <= j < |chunks| ==> chunks[j].text != ""
    decreases |chunks| - i
  {
    if i < |chunks| {
      BuiltAreNotEmpty(w, req, chunks, e, i + 1);
    }
  }

  /** Sound objects with distinct ids drawn from `first` up to `bound`. */
  ghost predicate FreshAndSound(w: World, objects: seq<KnowledgeObject>, first: nat, bound: nat) {
    && (forall i :: 0 <= i < |objects| ==> Sound(w, objects[i]) && first <= objects[i].objectId < bound)
    && (forall i, j :: 0 <= i < j < |objects| ==> objects[i].objectId != objects[j].objectId)
  }

  lemma {:induction false} AcceptedAreSound(w: World, objects: seq<KnowledgeObject>, first: nat)
    requires forall i :: 0 <= i < |objects| ==>
      && objects[i].objectId == first + i && objects[i].classification <= w.maxClassification
      && objects[i].content != "" && objects[i].contentHash == w.contentHash(objects[i].content)
    ensures FreshAndSound(w, Accepted(w, objects), first, first + |objects|)
  {
    if objects != [] {
      AcceptedAreSound(w, objects[..|objects| - 1], first);
    }
  }

  /** The rows one call adds. */
  ghost function Added(w: World, st: State, req: Request, a: Answer): seq<KnowledgeObject> {
    if Admission(w, req).Some? || Found(w, st, a, FirstHash(w, req)).Some? then []
    else
      var chunks := ChunksOf(w, req);
      if (a.embedding.Vectors? && a.embedding.dimensions != w.dimensions)
         || FirstUnbuilt(w, req, chunks, a.embedding, 0).Some? || a.level >= 2 then []
      else Written(w, Objects(w, req, chunks, a.embedding, st.nextId), a)
  }

  lemma {:induction false} AfterAdds(w: World, st: State, req: Request, a: Answer)
    ensures After(w, st, req, a).rows == st.rows + Added(w, st, req, a)
    ensures st.nextId <= After(w, st, req, a).nextId
  {
    assert st.rows + [] == st.rows;
  }

  lemma {:induction false} WrittenAreSound(w: World, req: Request, chunks: seq<Chunker.Chunk>, a: Answer, first: nat)
    requires req.classification <= w.maxClassification
    requires FirstUnbuilt(w, req, chunks, a.embedding, 0).None?
    ensures FreshAndSound(w, Written(w, Objects(w, req, chunks, a.embedding, first), a), first, first + |chunks|)
  {
    BuiltAreNotEmpty(w, req, chunks, a.embedding, 0);
    AcceptedAreSound(w, Objects(w, req, chunks, a.embedding, first), first);
  }

  lemma {:induction false} AddedAreSound(w: World, st: State, req: Request, a: Answer)
    ensures FreshAndSound(w, Added(w, st, req, a), st.nextId, After(w, st, req, a).nextId)
  {
    var added := Added(w, st, req, a);
    if added != [] {
      var chunks := ChunksOf(w, req);
      WrittenAreSound(w, req, chunks, a, st.nextId);
      assert After(w, st, req, a).nextId == st.nextId + |chunks|;
    }
  }

  lemma {:induction false} MaySendLater(w: World, calls: seq<Call>, c: Call, texts: seq<string>)
    ensures MaySend(w, calls, texts) ==> MaySend(w, calls + [c], texts)
    ensures MayBeSentFor(w, c.req, texts) ==> MaySend(w, calls + [c], texts)
  {
    if MaySend(w, calls, texts) {
      var i :| 0 <= i < |calls| && MayBeSentFor(w, calls[i].req, texts);
      assert MayBeSentFor(w, (calls + [c])[i].req, texts);
    }
    if MayBeSentFor(w, c.req, texts) {
      assert MayBeSentFor(w, (calls + [c])[|calls|].req, texts);
    }
  }

  lemma {:induction false} AfterSendsCleanText(w: World, st: State, req: Request, a: Answer)
    ensures var st' := After(w, st, req, a);
      st'.embedded == st.embedded
      || (st'.embedded == st.embedded + [Texts(ChunksOf(w, req))] && MayBeSentFor(w, req, Texts(ChunksOf(w, req))))
  {
  }

  /**
   * After any run: every stored object is within both ceilings, matches its digest and carries a
   * vector of the store's size or none, ids are distinct, and everything ever sent to the
   * embedder belonged to a request within the ceiling that passed the injection screen.
   */
  lemma {:induction false} RunsAreSafe(w: World, calls: seq<Call>)
    ensures Safe(w, calls, Run(w, State([], [], [], 0), calls))
  {
    hide After, Added, Sound, MayBeSentFor;
    if calls != [] {
      var front, c := calls[..|calls| - 1], calls[|calls| - 1];
      RunsAreSafe(w, front);
      var st := Run(w, State([], [], [], 0), front);
      AfterAdds(w, st, c.req, c.answer);
      AddedAreSound(w, st, c.req, c.answer);
      AfterSendsCleanText(w, st, c.req, c.answer);
      assert front + [c] == calls;
      forall texts | MaySend(w, front, texts) || MayBeSentFor(w, c.req, texts)
        ensures MaySend(w, calls, texts)
      {
        MaySendLater(w, front, c, texts);
      }
    }
  }

  function Requests(calls: seq<Call>): seq<Request> {
    seq(|calls|, i requires 0 <= i < |calls| => calls[i].req)
  }

  lemma {:induction false} QuarantineGrows(w: World, st: State, req: Request, a: Answer)
    ensures After(w, st, req, a).quarantine == st.quarantine + if Suspect(w, req) then [req] else []
  {
    hide Chunker.IsCover, ChunksOf, Lookup, Writing;
    assert st.quarantine + [] == st.quarantine;
  }

  /** Exactly the documents that can be cut up and are not held go to the embedder, all their chunks at once. */
  lemma {:induction false} EmbeddedGrows(w: World, st: State, req: Request, a: Answer)
    ensures After(w, st, req, a).embedded == st.embedded
      + if Cuttable(w, req) && !Answered(w, st, req, a).duplicate then [Texts(ChunksOf(w, req))] else []
  {
    hide Admission, Cuttable, ChunksOf, Lookup, Writing, Texts;
    CuttableIsAdmitted(w, req);
    assert st.embedded + [] == st.embedded;
  }

  lemma {:induction false} ChunksAreNumbered(w: World, req: Request)
    ensures var chunks := ChunksOf(w, req);
      forall i :: 0 <= i < |chunks| ==> chunks[i].index == i && chunks[i].total == |chunks|
  {
  }

  lemma {:induction false} RowsGrow(w: World, st: State, req: Request, a: Answer)
    ensures var r, st' := Answered(w, st, req, a), After(w, st, req, a);
      && (r.ok && !r.duplicate ==>
            && |st'.rows| == |st.rows| + r.chunkTotal && st.rows <= st'.rows
            && Stored(w, req, a, r.objectIds, st'.rows[|st.rows|..]))
      && (KeepsWidth(a) && (!r.ok || r.duplicate) ==> st'.rows == st.rows)
  {
    hide Admission, KeepsWidth, ChunksOf, Lookup, Writing, Added, After;
    var r := Answered(w, st, req, a);
    AfterAdds(w, st, req, a);
    if r.ok && !r.duplicate {
      SuccessStoresTheDocument(w, st, req, a);
      ChunksAreNumbered(w, req);
      var objects := Objects(w, req, ChunksOf(w, req), a.embedding, st.nextId);
      assert After(w, st, req, a).rows[|st.rows|..] == objects;
    } else if KeepsWidth(a) {
      NoPartialWrite(w, st, req, a);
    }
  }

  /** After any run the quarantine has gained exactly the suspects offered, in order. */
  lemma {:induction false} QuarantineIsExact(w: World, st: State, calls: seq<Call>)
    ensures Run(w, st, calls).quarantine == st.quarantine + Filter((req: Request) => Suspect(w, req), Requests(calls))
  {
    hide After, Suspect;
    if calls == [] {
      assert st.quarantine + [] == st.quarantine;
    } else {
      var front, last := calls[..|calls| - 1], calls[|calls| - 1];
      QuarantineIsExact(w, st, front);
      QuarantineGrows(w, Run(w, st, front), last.req, last.answer);
      assert Requests(calls)[..|calls| - 1] == Requests(front);
      assert Requests(calls)[|calls| - 1] == last.req;
    }
  }

  // ---------------------------------------------------------------------------
  // Idempotence, and where it ends
  // ---------------------------------------------------------------------------

  lemma {:induction false} RowsStay(w: World, st: State, calls: seq<Call>)
    ensures st.rows <= Run(w, st, calls).rows
  {
    if calls != [] {
      var last := calls[|calls| - 1];
      RowsStay(w, st, calls[..|calls| - 1]);
      AfterAdds(w, Run(w, st, calls[..|calls| - 1]), last.req, last.answer);
    }
  }

  lemma {:induction false} HoldsInLonger(rows: seq<KnowledgeObject>, more: seq<KnowledgeObject>, hash: string)
    requires rows <= more && Holds(rows, hash)
    ensures Holds(more, hash)
  {
    var i :| 0 <= i < |rows| && rows[i].contentHash == hash;
    assert more[i].contentHash == hash;
  }

  /**
   * An admissible request is a duplicate exactly when the store is open, answers hashes and holds
   * that of its first chunk.
   */
  lemma {:induction false} DuplicateExactly(w: World, st: State, req: Request, a: Answer)
    requires Admission(w, req).None?
    ensures Answered(w, st, req, a).duplicate <==> w.answersHashes && a.storeOpen && Holds(st.rows, FirstHash(w, req))
    ensures Answered(w, st, req, a).duplicate ==> After(w, st, req, a) == st
  {
    LookupFinds(st.rows, FirstHash(w, req));
  }

  lemma {:induction false} AdmittedHasChunks(w: World, req: Request)
    requires Admission(w, req).None?
    ensures ChunksOf(w, req) != []
  {
    hide Chunker.IsCover;
  }

  lemma {:induction false} UnrefusedIsWritten(w: World, req: Request, chunks: seq<Chunker.Chunk>, a: Answer, first: nat)
    requires chunks != [] && Writing(w, req, chunks, a, first).None?
    ensures a.storeOpen && a.level < 2
    ensures Written(w, Objects(w, req, chunks, a.embedding, first), a) == Objects(w, req, chunks, a.embedding, first)
  {
    hide FirstUnbuilt, Failures, Written, Objects;
    OkMeansNoFailure(w, Objects(w, req, chunks, a.embedding, first), a);
  }

  /** A success holds the whole document: each chunk's object is stored, in order, or its first hash already was. */
  lemma {:induction false} SuccessStoresTheDocument(w: World, st: State, req: Request, a: Answer)
    requires Answered(w, st, req, a).ok
    ensures Admission(w, req).None? && a.storeOpen
    ensures Holds(After(w, st, req, a).rows, FirstHash(w, req))
    ensures !Answered(w, st, req, a).duplicate ==>
      After(w, st, req, a).rows == st.rows + Objects(w, req, ChunksOf(w, req), a.embedding, st.nextId)
  {
    hide Admission, Writing, Written, ChunksOf, Lookup;
    LookupFinds(st.rows, FirstHash(w, req));
    AdmittedHasChunks(w, req);
    if !Answered(w, st, req, a).duplicate {
      var objects := Objects(w, req, ChunksOf(w, req), a.embedding, st.nextId);
      UnrefusedIsWritten(w, req, ChunksOf(w, req), a, st.nextId);
      assert (st.rows + objects)[|st.rows|].contentHash == FirstHash(w, req);
    }
  }

  /**
   * Once a request has been accepted, offering it again, at any later point and whatever the
   * embedder would say, is a duplicate that sends nothing, writes nothing and changes nothing.
   */
  lemma {:induction false} SecondOfferIsANoOp(
    w: World, st: State, req: Request, a: Answer, later: seq<Call>, a': Answer)
    requires Answered(w, st, req, a).ok && a'.storeOpen && w.answersHashes
    ensures var st' := Run(w, After(w, st, req, a), later);
      && Answered(w, st', req, a').duplicate && Answered(w, st', req, a').ok
      && After(w, st', req, a') == st'
  {
    SuccessStoresTheDocument(w, st, req, a);
    var st1 := After(w, st, req, a);
    RowsStay(w, st1, later);
    HoldsInLonger(st1.rows, Run(w, st1, later).rows, FirstHash(w, req));
    DuplicateExactly(w, Run(w, st1, later), req, a');
  }

  lemma {:induction false} RefusalsIgnoreIds(w: World, objects: seq<KnowledgeObject>, others: seq<KnowledgeObject>)
    requires |objects| == |others|
    requires forall i :: 0 <= i < |objects| ==> others[i] == objects[i].(objectId := others[i].objectId)
    ensures |Refusals(w, objects)| == |Refusals(w, others)| && |Accepted(w, objects)| == |Accepted(w, others)|
    ensures forall i :: 0 <= i < |Refusals(w, objects)| ==>
      Refusals(w, objects)[i].reason == Refusals(w, others)[i].reason
  {
    if objects != [] {
      RefusalsIgnoreIds(w, objects[..|objects| - 1], others[..|others| - 1]);
    }
  }

  lemma {:induction false} WritingIgnoresIds(
    w: World, req: Request, chunks: seq<Chunker.Chunk>, a: Answer, n: nat, m: nat)
    ensures Writing(w, req, chunks, a, n) == Writing(w, req, chunks, a, m)
  {
    hide Refusals, Accepted, FirstUnbuilt;
    RefusalsIgnoreIds(w, Objects(w, req, chunks, a.embedding, n), Objects(w, req, chunks, a.embedding, m));
  }

  /**
   * A store that never answers a hash keeps nothing from being stored again: accepted once, in
   * whatever state, with an answer, a request is accepted in every state with that answer, and
   * every acceptance adds all its chunks.
   */
  lemma {:induction false} NoLookupStoresAgain(w: World, st: State, later: State, req: Request, a: Answer)
    requires Answered(w, st, req, a).ok && !w.answersHashes
    ensures Answered(w, later, req, a).ok && !Answered(w, later, req, a).duplicate
    ensures After(w, later, req, a).rows
      == later.rows + Objects(w, req, ChunksOf(w, req), a.embedding, later.nextId)
  {
    hide Writing, ChunksOf;
    SuccessStoresTheDocument(w, st, req, a);
    WritingIgnoresIds(w, req, ChunksOf(w, req), a, st.nextId, later.nextId);
    SuccessStoresTheDocument(w, later, req, a);
  }

  /**
   * Only the first chunk is compared: any other admissible document that opens with the same
   * chunk is reported as already held, and none of the rest of it is ever written.
   */
  lemma {:induction false} SharedOpeningIsNotStored(w: World, st: State, req: Request, a: Answer,
                                                    other: Request, a': Answer)
    requires Answered(w, st, req, a).ok && a'.storeOpen && w.answersHashes && Admission(w, other).None?
    requires ChunksOf(w, other)[0].text == ChunksOf(w, req)[0].text
    ensures var st' := After(w, st, req, a);
      Answered(w, st', other, a').ok && Answered(w, st', other, a').duplicate && After(w, st', other, a') == st'
  {
    hide Admission, ChunksOf, Answered, After;
    SuccessStoresTheDocument(w, st, req, a);
    DuplicateExactly(w, After(w, st, req, a), other, a');
    DuplicateIsOk(w, After(w, st, req, a), other, a');
  }

  lemma {:induction false} HoldsEither(rows: seq<KnowledgeObject>, more: seq<KnowledgeObject>, hash: string)
    ensures Holds(rows + more, hash) <==> Holds(rows, hash) || Holds(more, hash)
  {
    if Holds(rows + more, hash) {
      var i :| 0 <= i < |rows + more| && (rows + more)[i].contentHash == hash;
      assert if i < |rows| then rows[i].contentHash == hash else more[i - |rows|].contentHash == hash;
    }
    if Holds(rows, hash) {
      HoldsInLonger(rows, rows + more, hash);
    }
    if Holds(more, hash) {
      var i :| 0 <= i < |more| && more[i].contentHash == hash;
      assert (rows + more)[|rows| + i].contentHash == hash;
    }
  }

  predicate TakenUnder(w: World, o: KnowledgeObject, hash: string) {
    StoreRefusal(w, o).None? && o.contentHash == hash
  }

  lemma {:induction false} AcceptedHashes(w: World, objects: seq<KnowledgeObject>, hash: string)
    ensures Holds(Accepted(w, objects), hash)
      <==> exists i :: 0 <= i < |objects| && TakenUnder(w, objects[i], hash)
  {
    if objects != [] {
      var n := |objects| - 1;
      var last := if StoreRefusal(w, objects[n]).None? then [objects[n]] else [];
      AcceptedHashes(w, objects[..n], hash);
      HoldsEither(Accepted(w, objects[..n]), last, hash);
      assert Holds(last, hash) <==> TakenUnder(w, objects[n], hash) by {
        if TakenUnder(w, objects[n], hash) {
          assert last[0].contentHash == hash;
        }
      }
      forall i | 0 <= i < n
        ensures TakenUnder(w, objects[i], hash) == TakenUnder(w, objects[..n][i], hash)
      {
      }
    }
  }

  lemma {:induction false} AllAreTaken(w: World, objects: seq<KnowledgeObject>)
    requires forall i :: 0 <= i < |objects| ==> StoreRefusal(w, objects[i]).None?
    ensures Refusals(w, objects) == []
  {
    if objects != [] {
      AllAreTaken(w, objects[..|objects| - 1]);
    }
  }

  lemma {:induction false} NoneIsTaken(w: World, objects: seq<KnowledgeObject>)
    requires forall i :: 0 <= i < |objects| ==> StoreRefusal(w, objects[i]).Some?
    ensures Accepted(w, objects) == []
  {
    if objects != [] {
      NoneIsTaken(w, objects[..|objects| - 1]);
    }
  }

  /** Objects of one document whose vectors have the configured size are all taken, or none is. */
  lemma {:induction false} TakenTogether(w: World, req: Request, chunks: seq<Chunker.Chunk>, a: Answer, first: nat)
    requires KeepsWidth(a) && (a.embedding.Vectors? ==> a.embedding.dimensions == w.dimensions)
    ensures var objects := Objects(w, req, chunks, a.embedding, first);
      Refusals(w, objects) == [] || Accepted(w, objects) == []
  {
    var objects := Objects(w, req, chunks, a.embedding, first);
    if req.classification > w.storeCeiling {
      NoneIsTaken(w, objects);
    } else {
      AllAreTaken(w, objects);
    }
  }

  /**
   * With an embedder that keeps its width, a call writes the whole document or nothing, and
   * writes it exactly when it reports it created.
   */
  lemma {:induction false} NoPartialWrite(w: World, st: State, req: Request, a: Answer)
    requires KeepsWidth(a)
    ensures var r := Answered(w, st, req, a);
      Added(w, st, req, a)
        == if r.ok && !r.duplicate then Objects(w, req, ChunksOf(w, req), a.embedding, st.nextId) else []
  {
    hide Admission, FirstUnbuilt, Objects, KeepsWidth, ChunksOf, Refusals, Accepted, Lookup;
    var chunks := ChunksOf(w, req);
    if Admission(w, req).None? {
      AdmittedHasChunks(w, req);
    }
    if Writing(w, req, chunks, a, st.nextId).None? && chunks != [] {
      UnrefusedIsWritten(w, req, chunks, a, st.nextId);
    } else if !(a.embedding.Vectors? && a.embedding.dimensions != w.dimensions) {
      TakenTogether(w, req, chunks, a, st.nextId);
    }
  }

  /**
   * So a refused document is not held because of the refused call: offering it again is a
   * duplicate only if it was one before.
   */
  lemma {:induction false} RefusedIsNotHeld(w: World, st: State, req: Request, a: Answer, a': Answer)
    requires KeepsWidth(a) && !Answered(w, st, req, a).ok && Admission(w, req).None?
    ensures After(w, st, req, a).rows == st.rows
    ensures Answered(w, After(w, st, req, a), req, a').duplicate <==> Answered(w, st, req, a').duplicate
    ensures a.storeOpen ==> !Answered(w, st, req, a').duplicate
  {
    hide Answered, After, Added, Admission;
    NoPartialWrite(w, st, req, a);
    AfterAdds(w, st, req, a);
    DuplicateExactly(w, st, req, a);
    DuplicateExactly(w, st, req, a');
    DuplicateExactly(w, After(w, st, req, a), req, a');
    if Answered(w, st, req, a).duplicate {
      DuplicateIsOk(w, st, req, a);
    }
    assert st.rows + [] == st.rows;
  }

  /**
   * Without that promise a document refused at I-11 by an open store may have been written in
   * part. Offering it again then succeeds as a duplicate exactly when the store took some object
   * with the first chunk's hash the first time; the rest is never retried.
   */
  lemma {:induction false} RetryAfterPartialWriteExactly(w: World, st: State, req: Request, a: Answer, a': Answer)
    requires Admission(w, req).None? && a.level < 2 && w.answersHashes
    requires a.storeOpen && !a.writeFails && a'.storeOpen
    requires var r := Answered(w, st, req, a); !r.ok && |r.trace| == 11
    ensures var objects := Objects(w, req, ChunksOf(w, req), a.embedding, st.nextId);
      Answered(w, After(w, st, req, a), req, a').duplicate
      <==> exists i :: 0 <= i < |objects| && TakenUnder(w, objects[i], FirstHash(w, req))
  {
    var hash := FirstHash(w, req);
    var objects := Objects(w, req, ChunksOf(w, req), a.embedding, st.nextId);
    LookupFinds(st.rows, hash);
    AfterAdds(w, st, req, a);
    assert Added(w, st, req, a) == Accepted(w, objects);
    DuplicateExactly(w, After(w, st, req, a), req, a');
    HoldsEither(st.rows, Accepted(w, objects), hash);
    AcceptedHashes(w, objects, hash);
  }

  // ---------------------------------------------------------------------------
  // When accepted means stored
  // ---------------------------------------------------------------------------

  const EMPTY := State([], [], [], 0)

  ghost predicate HasChunkHash(w: World, req: Request, hash: string) {
    exists i :: 0 <= i < |ChunksOf(w, req)| && w.contentHash(ChunksOf(w, req)[i].text) == hash
  }

  /** The store holds every chunk of the document. */
  ghost predicate WhollyHeld(w: World, rows: seq<KnowledgeObject>, req: Request) {
    forall hash :: HasChunkHash(w, req, hash) ==> Holds(rows, hash)
  }

  /** Offered to an empty store with this answer of a sound embedder, the request is created. */
  ghost predicate Storable(w: World, req: Request, a: Answer) {
    KeepsWidth(a) && Admission(w, req).None? && Writing(w, req, ChunksOf(w, req), a, 0).None?
  }

  ghost predicate AcceptedAt(w: World, calls: seq<Call>, i: nat)
    requires i < |calls|
  {
    Answered(w, Run(w, EMPTY, calls[..i]), calls[i].req, calls[i].answer).ok
  }

  /** Only documents of `reqs` are offered, and the embedder keeps its width throughout. */
  ghost predicate Offers(calls: seq<Call>, reqs: set<Request>) {
    forall i :: 0 <= i < |calls| ==> calls[i].req in reqs && KeepsWidth(calls[i].answer)
  }

  /** Every accepted document of the run is wholly held at its end. */
  ghost predicate AcceptedAreHeld(w: World, calls: seq<Call>) {
    forall i :: 0 <= i < |calls| && AcceptedAt(w, calls, i) ==> WhollyHeld(w, Run(w, EMPTY, calls).rows, calls[i].req)
  }

  ghost predicate Covers(w: World, x: Request, y: Request) {
    forall hash :: HasChunkHash(w, y, hash) ==> HasChunkHash(w, x, hash)
  }

  /** `y` opens with a chunk of `x`, which can be stored, and has another chunk that `x` has not. */
  ghost predicate Shadows(w: World, x: Request, y: Request, a: Answer) {
    Storable(w, x, a) && Admission(w, y).None? && HasChunkHash(w, x, FirstHash(w, y)) && !Covers(w, x, y)
  }

  ghost predicate NoneShadowed(w: World, reqs: set<Request>) {
    forall x, y, a :: x in reqs && y in reqs ==> !Shadows(w, x, y, a)
  }

  /** Some document of the run owns this row, and all of that document is held. */
  ghost predicate Owned(w: World, reqs: set<Request>, rows: seq<KnowledgeObject>, hash: string) {
    exists x, a :: x in reqs && Storable(w, x, a) && HasChunkHash(w, x, hash) && WhollyHeld(w, rows, x)
  }

  ghost predicate AllOwned(w: World, reqs: set<Request>, rows: seq<KnowledgeObject>) {
    forall hash :: Holds(rows, hash) ==> Owned(w, reqs, rows, hash)
  }

  lemma {:induction false} WhollyHeldStays(
    w: World, rows: seq<KnowledgeObject>, more: seq<KnowledgeObject>, req: Request)
    requires WhollyHeld(w, rows, req)
    ensures WhollyHeld(w, rows + more, req)
  {
    hide HasChunkHash, Holds;
    forall hash | HasChunkHash(w, req, hash)
      ensures Holds(rows + more, hash)
    {
      HoldsEither(rows, more, hash);
    }
  }

  /** The objects of a document hold exactly its chunk hashes. */
  lemma {:induction false} ObjectsHold(w: World, req: Request, e: Embedding, first: nat, hash: string)
    ensures Holds(Objects(w, req, ChunksOf(w, req), e, first), hash) <==> HasChunkHash(w, req, hash)
  {
    hide ChunksOf;
    var objects := Objects(w, req, ChunksOf(w, req), e, first);
    if i :| 0 <= i < |objects| && objects[i].contentHash == hash {
      assert w.contentHash(ChunksOf(w, req)[i].text) == hash;
    }
    if i :| 0 <= i < |ChunksOf(w, req)| && w.contentHash(ChunksOf(w, req)[i].text) == hash {
      assert objects[i].contentHash == hash;
    }
  }

  lemma {:induction false} CreatedIsStorable(w: World, st: State, req: Request, a: Answer)
    requires KeepsWidth(a) && Answered(w, st, req, a).ok && !Answered(w, st, req, a).duplicate
    ensures Storable(w, req, a)
  {
    hide Writing, ChunksOf, KeepsWidth;
    SuccessStoresTheDocument(w, st, req, a);
    WritingIgnoresIds(w, req, ChunksOf(w, req), a, st.nextId, 0);
  }

  /** A created document is wholly held, and keeps every row owned. */
  lemma {:induction false} CreatedIsOwned(w: World, reqs: set<Request>, rows: seq<KnowledgeObject>,
                                          req: Request, a: Answer, first: nat)
    requires req in reqs && Storable(w, req, a) && AllOwned(w, reqs, rows)
    ensures var rows' := rows + Objects(w, req, ChunksOf(w, req), a.embedding, first);
      WhollyHeld(w, rows', req) && AllOwned(w, reqs, rows')
  {
    hide HasChunkHash, Holds, ChunksOf, Objects, Storable;
    var objects := Objects(w, req, ChunksOf(w, req), a.embedding, first);
    forall hash
      ensures Holds(rows + objects, hash) <==> Holds(rows, hash) || HasChunkHash(w, req, hash)
    {
      HoldsEither(rows, objects, hash);
      ObjectsHold(w, req, a.embedding, first, hash);
    }
    forall hash | Holds(rows + objects, hash)
      ensures Owned(w, reqs, rows + objects, hash)
    {
      if Holds(rows, hash) {
        assert Owned(w, reqs, rows, hash);
        var x, b :| x in reqs && Storable(w, x, b) && HasChunkHash(w, x, hash) && WhollyHeld(w, rows, x);
        WhollyHeldStays(w, rows, objects, x);
      }
    }
  }

  /** Where no document shadows another, a duplicate is wholly held already. */
  lemma {:induction false} DuplicateIsHeld(w: World, reqs: set<Request>, rows: seq<KnowledgeObject>, y: Request)
    requires NoneShadowed(w, reqs) && AllOwned(w, reqs, rows)
    requires y in reqs && Admission(w, y).None? && Holds(rows, FirstHash(w, y))
    ensures WhollyHeld(w, rows, y)
  {
    hide HasChunkHash, Holds, Storable, Admission, FirstHash;
    assert Owned(w, reqs, rows, FirstHash(w, y));
    var x, a :| x in reqs && Storable(w, x, a) && HasChunkHash(w, x, FirstHash(w, y)) && WhollyHeld(w, rows, x);
    assert !Shadows(w, x, y, a);
  }

  lemma {:induction false} CallKeepsOwned(w: World, reqs: set<Request>, st: State, req: Request, a: Answer)
    requires w.answersHashes && NoneShadowed(w, reqs) && AllOwned(w, reqs, st.rows) && req in reqs
    requires KeepsWidth(a)
    ensures AllOwned(w, reqs, After(w, st, req, a).rows)
    ensures Answered(w, st, req, a).ok ==> WhollyHeld(w, After(w, st, req, a).rows, req)
  {
    hide NoneShadowed, AllOwned, WhollyHeld, Added;
    hide Answered, After, Admission;
    if Answered(w, st, req, a).ok {
      SuccessStoresTheDocument(w, st, req, a);
      if Answered(w, st, req, a).duplicate {
        DuplicateExactly(w, st, req, a);
        DuplicateIsHeld(w, reqs, st.rows, req);
      } else {
        CreatedIsStorable(w, st, req, a);
        CreatedIsOwned(w, reqs, st.rows, req, a, st.nextId);
      }
    } else {
      NoPartialWrite(w, st, req, a);
      AfterAdds(w, st, req, a);
      assert st.rows + [] == st.rows;
    }
  }

  lemma {:induction false} HeldLater(w: World, calls: seq<Call>, n: nat, req: Request)
    requires n <= |calls| && WhollyHeld(w, Run(w, EMPTY, calls[..n]).rows, req)
    ensures WhollyHeld(w, Run(w, EMPTY, calls).rows, req)
    decreases |calls|
  {
    hide After, WhollyHeld, Added;
    if n == |calls| {
      assert calls[..n] == calls;
    } else {
      var m := |calls| - 1;
      assert calls[..m][..n] == calls[..n];
      HeldLater(w, calls[..m], n, req);
      var st := Run(w, EMPTY, calls[..m]);
      AfterAdds(w, st, calls[m].req, calls[m].answer);
      WhollyHeldStays(w, st.rows, Added(w, st, calls[m].req, calls[m].answer), req);
    }
  }

  lemma {:induction false} RunKeepsOwned(w: World, reqs: set<Request>, calls: seq<Call>)
    requires w.answersHashes && NoneShadowed(w, reqs) && Offers(calls, reqs)
    ensures AllOwned(w, reqs, Run(w, EMPTY, calls).rows)
  {
    hide NoneShadowed, AllOwned, Answered, After, Added;
    if calls == [] {
      NothingToOwn(w, reqs);
    } else {
      var n := |calls| - 1;
      RunKeepsOwned(w, reqs, calls[..n]);
      CallKeepsOwned(w, reqs, Run(w, EMPTY, calls[..n]), calls[n].req, calls[n].answer);
    }
  }

  lemma {:induction false} NothingToOwn(w: World, reqs: set<Request>)
    ensures AllOwned(w, reqs, Run(w, EMPTY, []).rows)
  {
  }

  lemma {:induction false} UnshadowedAreHeld(w: World, reqs: set<Request>, calls: seq<Call>)
    requires w.answersHashes && NoneShadowed(w, reqs) && Offers(calls, reqs)
    ensures AcceptedAreHeld(w, calls)
  {
    hide NoneShadowed, AllOwned, Answered, After, Added, WhollyHeld;
    forall i | 0 <= i < |calls| && AcceptedAt(w, calls, i)
      ensures WhollyHeld(w, Run(w, EMPTY, calls).rows, calls[i].req)
    {
      RunKeepsOwned(w, reqs, calls[..i]);
      CallKeepsOwned(w, reqs, Run(w, EMPTY, calls[..i]), calls[i].req, calls[i].answer);
      assert calls[..i + 1][..i] == calls[..i];
      HeldLater(w, calls, i + 1, calls[i].req);
    }
  }

  lemma {:induction false} StorableIsCreated(w: World, req: Request, a: Answer)
    requires Storable(w, req, a)
    ensures KeepsWidth(a) && Answered(w, EMPTY, req, a).ok && !Answered(w, EMPTY, req, a).duplicate && a.storeOpen
    ensures After(w, EMPTY, req, a).rows == Objects(w, req, ChunksOf(w, req), a.embedding, 0)
  {
    hide Writing, ChunksOf, Objects, Admission;
    assert Answered(w, EMPTY, req, a).ok;
    SuccessStoresTheDocument(w, EMPTY, req, a);
    assert [] + Objects(w, req, ChunksOf(w, req), a.embedding, 0) == Objects(w, req, ChunksOf(w, req), a.embedding, 0);
  }

  /** A shadowed document: offered after the other it is accepted, though not all of it is held. */
  lemma {:induction false} ShadowedIsLost(w: World, x: Request, y: Request, a: Answer)
    requires w.answersHashes && Shadows(w, x, y, a)
    ensures var calls := [Call(x, a), Call(y, a)];
      KeepsWidth(a) && AcceptedAt(w, calls, 1) && !WhollyHeld(w, Run(w, EMPTY, calls).rows, y)
  {
    hide Answered, After, Admission, Storable, HasChunkHash, Holds, ChunksOf, Objects;
    var calls := [Call(x, a), Call(y, a)];
    assert calls[..0] == [] && calls[..1] == [Call(x, a)] && calls[..1][..0] == [];
    var st := After(w, EMPTY, x, a);
    assert Run(w, EMPTY, calls[..0]) == EMPTY && Run(w, EMPTY, calls[..1]) == st;
    StorableIsCreated(w, x, a);
    assert AcceptedAt(w, calls, 0);
    ObjectsHold(w, x, a.embedding, 0, FirstHash(w, y));
    DuplicateExactly(w, st, y, a);
    DuplicateIsOk(w, st, y, a);
    assert AcceptedAt(w, calls, 1) && Run(w, EMPTY, calls) == st;
    var hash :| HasChunkHash(w, y, hash) && !HasChunkHash(w, x, hash);
    ObjectsHold(w, x, a.embedding, 0, hash);
  }

  lemma {:induction false} DuplicateIsOk(w: World, st: State, req: Request, a: Answer)
    requires Answered(w, st, req, a).duplicate
    ensures Answered(w, st, req, a).ok
  {
    hide Writing, ChunksOf, Lookup;
  }

  /**
   * Exactly when accepted means stored. For any set of documents: in every run that offers them
   * to a store that answers hashes, with an embedder that keeps its width, whatever else
   * happens, every accepted document is wholly held, if and only if none of them shadows another.
   */
  lemma {:induction false} AcceptedAreHeldExactly(w: World, reqs: set<Request>)
    requires w.answersHashes
    ensures (forall calls :: Offers(calls, reqs) ==> AcceptedAreHeld(w, calls))
       <==> NoneShadowed(w, reqs)
  {
    hide Answered, After, Run, WhollyHeld, Shadows, AcceptedAt, KeepsWidth;
    if NoneShadowed(w, reqs) {
      forall calls | Offers(calls, reqs)
        ensures AcceptedAreHeld(w, calls)
      {
        UnshadowedAreHeld(w, reqs, calls);
      }
    } else {
      var x, y, a :| x in reqs && y in reqs && Shadows(w, x, y, a);
      ShadowedIsLost(w, x, y, a);
      var calls := [Call(x, a), Call(y, a)];
      assert Offers(calls, reqs) && !AcceptedAreHeld(w, calls);
    }
  }

  // ---------------------------------------------------------------------------
  // Two documents that shadow one another
  // ---------------------------------------------------------------------------

  /** A plane that admits everything, hashes by identity and cuts chunks of the given size without overlap. */
  function OpenWorld(size: nat): World {
    World((_: Request) => true, (_: string) => true, (t: string) => t, (_: string) => 0, (t: string) => t,
          (_: Request, _: Chunker.Chunk, _: Vector) => None, 0, size, 0, 1, 0, true)
  }

  /** The embedder is away, and the store is open and well. */
  const UNEMBEDDED := Answer(Unavailable, true, false, 0, None)

  predicate Letters(text: string) {
    forall i :: 0 <= i < |text| ==> 'a' <= text[i] <= 'z'
  }

  /** A document that makes two chunks of letters, and no more. */
  predicate TwoChunks(req: Request, size: nat) {
    && size > 0 && req.classification == 0 && Letters(req.content)
    && Chunker.WindowChars(size) < |req.content| <= 2 * Chunker.WindowChars(size)
    && |req.content| <= MAX_INGESTION_CHARACTERS
  }

  /** Text of letters has no boundary, so it is cut at the hard limit. */
  lemma {:induction false} LettersAreCutHard(text: string, w: nat)
    requires Letters(text) && 1 < w < |text| <= 2 * w
    ensures Chunker.PiecesFrom(text, 0, w, 0)
      == [Chunker.Piece(text[0..w], 0, w), Chunker.Piece(text[w..], w, |text|)]
  {
    forall k: Chunker.Softness
      ensures Chunker.NoneAdmissible(text, 0, w, k)
    {
    }
    assert Chunker.Cut(text, 0, w) == w;
    assert Chunker.PiecesFrom(text, w, w, 0) == [Chunker.Piece(text[w..], w, |text|)];
  }

  lemma {:induction false} LetterChunks(req: Request, size: nat)
    requires TwoChunks(req, size)
    ensures var n := Chunker.WindowChars(size);
      Texts(ChunksOf(OpenWorld(size), req)) == [req.content[..n], req.content[n..]]
  {
    hide Chunker.PiecesFrom, Chunker.TrimStart, Chunker.TrimEnd;
    var text, n := req.content, Chunker.WindowChars(size);
    LettersAreCutHard(text, n);
    assert Chunker.OverlapChars(0) == 0;
    var chunks := ChunksOf(OpenWorld(size), req);
    LettersAreTrimmed(text[0..n]);
    LettersAreTrimmed(text[n..]);
    assert chunks[0].text == text[..n] && chunks[1].text == text[n..];
  }

  lemma {:induction false} LettersAreTrimmed(text: string)
    requires Letters(text)
    ensures Chunker.TrimEnd(Chunker.TrimStart(text)) == text
  {
  }

  lemma {:induction false} AllAreBuilt(w: World, req: Request, chunks: seq<Chunker.Chunk>, e: Embedding, i: nat)
    requires i <= |chunks|
    requires forall j :: 0 <= j < |chunks| ==> ConstructionRefusal(w, req, chunks[j], VectorFor(e, j)).None?
    ensures FirstUnbuilt(w, req, chunks, e, i).None?
    decreases |chunks| - i
  {
    if i < |chunks| {
      AllAreBuilt(w, req, chunks, e, i + 1);
    }
  }

  lemma {:induction false} OpenWorldAdmits(req: Request, size: nat)
    requires TwoChunks(req, size)
    ensures Admission(OpenWorld(size), req).None?
  {
    hide Chunker.IsCover;
    var pieces := Chunker.PiecesFrom(req.content, 0, Chunker.WindowChars(size), 0);
    Chunker.ChunksAreCover(pieces, OpenWorld(size).estimateTokens);
  }

  lemma {:induction false} OpenWorldStores(req: Request, size: nat)
    requires TwoChunks(req, size)
    ensures Storable(OpenWorld(size), req, UNEMBEDDED)
  {
    hide ChunksOf, Admission, FirstUnbuilt, Refusals;
    var w, a := OpenWorld(size), UNEMBEDDED;
    OpenWorldAdmits(req, size);
    LetterChunks(req, size);
    var chunks := ChunksOf(w, req);
    assert |Texts(chunks)| == 2;
    assert chunks[0].text == Texts(chunks)[0] && chunks[1].text == Texts(chunks)[1];
    AllAreBuilt(w, req, chunks, a.embedding, 0);
    AllAreTaken(w, Objects(w, req, chunks, a.embedding, 0));
  }

  /** At every chunk size two documents of one opening chunk and different endings shadow one another. */
  lemma {:induction false} SharedOpeningShadows(size: nat, opening: string, x: char, y: char)
    requires size > 0 && |opening| == Chunker.WindowChars(size) < MAX_INGESTION_CHARACTERS
    requires Letters(opening) && 'a' <= x <= 'z' && 'a' <= y <= 'z' && x != y
    ensures Shadows(OpenWorld(size), Request("x", opening + [x], 0), Request("y", opening + [y], 0), UNEMBEDDED)
  {
    hide ChunksOf, Admission, Storable;
    var w := OpenWorld(size);
    var rx, ry := Request("x", opening + [x], 0), Request("y", opening + [y], 0);
    OpenWorldStores(rx, size);
    OpenWorldAdmits(ry, size);
    LetterChunks(rx, size);
    LetterChunks(ry, size);
    var cx, cy := ChunksOf(w, rx), ChunksOf(w, ry);
    assert |Texts(cx)| == 2 && |Texts(cy)| == 2;
    assert cx[0].text == Texts(cx)[0] == opening && cx[1].text == Texts(cx)[1] == [x];
    assert cy[0].text == Texts(cy)[0] == opening && cy[1].text == Texts(cy)[1] == [y];
    assert HasChunkHash(w, rx, FirstHash(w, ry)) && HasChunkHash(w, ry, [y]);
    assert |opening| != |[y]|;
    assert !HasChunkHash(w, rx, [y]);
  }

  /** An embedder that declares one width and gives the second vector another. */
  const UNEVEN := Answer(Vectors(1, [[0.0], [0.0, 0.0]]), true, false, 0, None)

  /**
   * With an embedder that breaks its promise a document of two chunks is refused though its
   * first chunk was written, and offering it again is a duplicate whatever the embedder then
   * answers: its second chunk is never stored.
   */
  lemma {:induction false} UnevenVectorsAreWrittenInPart(req: Request, size: nat, a': Answer)
    requires TwoChunks(req, size) && a'.storeOpen
    ensures var w := OpenWorld(size);
      && !KeepsWidth(UNEVEN) && !Answered(w, EMPTY, req, UNEVEN).ok
      && |After(w, EMPTY, req, UNEVEN).rows| == 1
      && Answered(w, After(w, EMPTY, req, UNEVEN), req, a').duplicate
  {
    hide ChunksOf, Admission, FirstUnbuilt, Answered;
    var w, a := OpenWorld(size), UNEVEN;
    OpenWorldAdmits(req, size);
    LetterChunks(req, size);
    var chunks := ChunksOf(w, req);
    assert |Texts(chunks)| == 2;
    assert chunks[0].text == Texts(chunks)[0] && chunks[1].text == Texts(chunks)[1];
    AllAreBuilt(w, req, chunks, a.embedding, 0);
    var objects := Objects(w, req, chunks, a.embedding, 0);
    assert |a.embedding.vectors[1]| == 2;
    FirstOfTwo(w, objects);
    assert After(w, EMPTY, req, a).rows == [objects[0]];
    assert After(w, EMPTY, req, a).rows[0].contentHash == FirstHash(w, req);
    UnevenIsRefused(w, req, a);
    DuplicateExactly(w, After(w, EMPTY, req, a), req, a');
  }

  lemma {:induction false} FirstOfTwo(w: World, objects: seq<KnowledgeObject>)
    requires |objects| == 2 && StoreRefusal(w, objects[0]).None? && StoreRefusal(w, objects[1]).Some?
    ensures Accepted(w, objects) == [objects[0]] && Refusals(w, objects) != []
  {
    hide StoreRefusal;
    assert objects[..1][..0] == [] && objects[..1] == [objects[0]];
    assert Accepted(w, objects[..1]) == [objects[0]];
  }

  lemma {:induction false} UnevenIsRefused(w: World, req: Request, a: Answer)
    requires Admission(w, req).None? && a.storeOpen
    requires Refusals(w, Objects(w, req, ChunksOf(w, req), a.embedding, 0)) != []
    ensures !Answered(w, EMPTY, req, a).ok
  {
    hide ChunksOf, Admission, FirstUnbuilt, Refusals, Objects;
  }
}
