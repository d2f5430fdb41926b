/**
 * The audit hash chain: append, the live verifier, the export, and the offline verifier.
 *
 * SHA-256 (section 6.2 of FIPS 180-4) is a parameter `h` with 64-character results. It is
 * never assumed injective, which no such function is: the tamper-evidence results end in
 * "or two of the strings hashed here collide, or one of them hashes to the genesis value".
 */
module HashChain {
  import opened Prelude
  import opened CanonicalJson

  function Zeros(n: nat): (s: string)
    ensures |s| == n
  {
    if n == 0 then "" else "0" + Zeros(n - 1)
  }

  type Digest = s: string | |s| == 64 witness Zeros(64)

  type Hash = string -> Digest

  const GENESIS: Digest := Zeros(64)

  lemma {:induction false} GenesisIsZeros(n: nat)
    ensures forall i :: 0 <= i < n ==> Zeros(n)[i] == '0'
  {
    if n > 0 {
      GenesisIsZeros(n - 1);
    }
  }

  /** A stored row. The hash columns are plain text: whoever tampers may write anything there. */
  datatype Row = Row(
    seqNo: int,
    recordId: string,
    timestamp: string,
    decisionId: string,
    decisionType: string,
    payloadJson: string,
    payloadHash: string,
    prevHash: string,
    chainHash: string)

  datatype Entry = Entry(
    payload: Value,
    decisionId: string,
    decisionType: string,
    timestamp: string,
    recordId: string)

  function Head(rows: seq<Row>): string {
    if rows == [] then GENESIS else rows[|rows| - 1].chainHash
  }

  // ---------------------------------------------------------------------------
  // Append
  // ---------------------------------------------------------------------------

  function NewRow(h: Hash, prev: string, seqNo: int, e: Entry): Row {
    var canonical := CanonicalStringify(Audit, e.payload);
    Row(seqNo, e.recordId, e.timestamp, e.decisionId, e.decisionType,
        canonical, h(canonical), prev, h(h(canonical) + prev))
  }

  /** The columns a new row must hold: the entry's own, its payload hashed, and the two links. */
  ghost predicate IsRowOf(h: Hash, prev: string, seqNo: int, e: Entry, r: Row) {
    && r.seqNo == seqNo && r.recordId == e.recordId && r.timestamp == e.timestamp
    && r.decisionId == e.decisionId && r.decisionType == e.decisionType
    && r.payloadJson == CanonicalStringify(Audit, e.payload) && r.payloadHash == h(r.payloadJson)
    && r.prevHash == prev && r.chainHash == h(r.payloadHash + prev)
  }

  class AuditChain {
    var rows: seq<Row>
    var lastSeq: int

    constructor ()
      ensures rows == [] && lastSeq == 0
    {
      rows, lastSeq := [], 0;
    }

    /** None is the UNIQUE failure of the insert: nothing is stored. */
    method Append(h: Hash, e: Entry) returns (r: Option<Row>)
      modifies this
      ensures r.None? <==> exists i :: 0 <= i < |old(rows)| && old(rows)[i].recordId == e.recordId
      ensures r.None? ==> rows == old(rows) && lastSeq == old(lastSeq)
      ensures r.Some? ==>
        && lastSeq == old(lastSeq) + 1
        && r.value == NewRow(h, Head(old(rows)), lastSeq, e)
        && IsRowOf(h, Head(old(rows)), old(lastSeq) + 1, e, r.value)
        && rows == old(rows) + [r.value]
    {
      if exists i :: 0 <= i < |rows| && rows[i].recordId == e.recordId {
        return None;
      }
      var canonical := CanonicalStringify(Audit, e.payload);
      var payloadHash := h(canonical);
      var prevHash := if |rows| > 0 then rows[|rows| - 1].chainHash else GENESIS;
      var chainHash := h(payloadHash + prevHash);
      lastSeq := lastSeq + 1;
      var row := Row(lastSeq, e.recordId, e.timestamp, e.decisionId, e.decisionType,
                     canonical, payloadHash, prevHash, chainHash);
      rows := rows + [row];
      r := Some(row);
    }
  }

  /** The table after appending `entries` to an empty one, with distinct record ids. */
  function Built(h: Hash, entries: seq<Entry>): (rows: seq<Row>)
    ensures |rows| == |entries|
  {
    if entries == [] then []
    else
      var n := |entries| - 1;
      var rows := Built(h, entries[..n]);
      rows + [NewRow(h, Head(rows), n + 1, entries[n])]
  }

  /**
   * Row by row, what a table built by appending holds: numbered from 1 without a gap, each linked
   * to the one before.
   */
  lemma {:induction false} BuiltRowsAreEntries(h: Hash, entries: seq<Entry>, i: nat)
    requires i < |entries|
    ensures var rows := Built(h, entries);
      IsRowOf(h, if i == 0 then GENESIS else rows[i - 1].chainHash, i + 1, entries[i], rows[i])
  {
    hide CanonicalStringify;
    var n := |entries| - 1;
    if i < n {
      BuiltRowsAreEntries(h, entries[..n], i);
    }
  }

  // ---------------------------------------------------------------------------
  // The live verifier
  // ---------------------------------------------------------------------------

  datatype Fault = PayloadMismatch | PrevMismatch | ChainMismatch

  /** The three tests made on a row, in order. */
  function Check(h: Hash, prev: string, r: Row): Option<Fault> {
    if h(r.payloadJson) != r.payloadHash then Some(PayloadMismatch)
    else if r.prevHash != prev then Some(PrevMismatch)
    else if h(r.payloadHash + r.prevHash) != r.chainHash then Some(ChainMismatch)
    else None
  }

  function CheckAt(h: Hash, rows: seq<Row>, i: int): Option<Fault>
    requires 0 <= i < |rows|
  {
    Check(h, Head(rows[..i]), rows[i])
  }

  ghost predicate Verifies(h: Hash, rows: seq<Row>) {
    forall i :: 0 <= i < |rows| ==> CheckAt(h, rows, i) == None
  }

  /** Row `i` is the first that fails a test. */
  ghost predicate FirstBreak(h: Hash, rows: seq<Row>, i: int) {
    0 <= i < |rows| && CheckAt(h, rows, i).Some? && forall j :: 0 <= j < i ==> CheckAt(h, rows, j) == None
  }

  datatype Verdict = Verdict(
    ok: bool, totalRecords: nat, brokenAtSeq: Option<int>, fault: Option<Fault>, headHash: string)

  /** The three tests in the loop body. */
  method CheckRow(h: Hash, prev: string, row: Row) returns (fault: Option<Fault>)
    ensures fault == Check(h, prev, row)
    ensures fault == Some(PayloadMismatch) <==> h(row.payloadJson) != row.payloadHash
    ensures fault == Some(PrevMismatch) <==> h(row.payloadJson) == row.payloadHash && row.prevHash != prev
    ensures fault == None <==>
      && h(row.payloadJson) == row.payloadHash && row.prevHash == prev
      && h(row.payloadHash + row.prevHash) == row.chainHash
  {
    if h(row.payloadJson) != row.payloadHash {
      return Some(PayloadMismatch);
    }
    if row.prevHash != prev {
      return Some(PrevMismatch);
    }
    if h(row.payloadHash + row.prevHash) != row.chainHash {
      return Some(ChainMismatch);
    }
    fault := None;
  }

  method VerifyChain(h: Hash, rows: seq<Row>) returns (v: Verdict)
    ensures v.totalRecords == |rows|
    ensures v.ok <==> Verifies(h, rows)
    ensures v.ok ==> v.headHash == Head(rows) && v.brokenAtSeq == None
    ensures !v.ok ==> exists i ::
      && FirstBreak(h, rows, i)
      && v.brokenAtSeq == Some(rows[i].seqNo) && v.fault == CheckAt(h, rows, i) && v.headHash == Head(rows[..i])
  {
    hide Check;
    var prev: string := GENESIS;
    for i := 0 to |rows|
      invariant prev == Head(rows[..i])
      invariant forall j :: 0 <= j < i ==> CheckAt(h, rows, j) == None
    {
      var fault := CheckRow(h, prev, rows[i]);
      if fault.Some? {
        assert FirstBreak(h, rows, i);
        return Verdict(false, |rows|, Some(rows[i].seqNo), fault, prev);
      }
      prev := rows[i].chainHash;
    }
    assert rows[..|rows|] == rows;
    v := Verdict(true, |rows|, None, None, prev);
  }

  lemma {:induction false} VerifiesSnoc(h: Hash, rows: seq<Row>, r: Row)
    ensures Verifies(h, rows + [r]) <==> Verifies(h, rows) && Check(h, Head(rows), r) == None
  {
    var all := rows + [r];
    assert forall i :: 0 <= i < |rows| ==> all[..i] == rows[..i];
    assert all[..|rows|] == rows;
    assert forall i :: 0 <= i < |rows| ==> CheckAt(h, all, i) == CheckAt(h, rows, i);
    assert CheckAt(h, all, |rows|) == Check(h, Head(rows), r);
  }

  /** Every chain built by appending verifies. */
  lemma {:induction false} BuiltVerifies(h: Hash, entries: seq<Entry>)
    ensures Verifies(h, Built(h, entries))
  {
    if entries != [] {
      var n := |entries| - 1;
      BuiltVerifies(h, entries[..n]);
      var rows := Built(h, entries[..n]);
      VerifiesSnoc(h, rows, NewRow(h, Head(rows), n + 1, entries[n]));
    }
  }

  // ---------------------------------------------------------------------------
  // Tamper evidence
  // ---------------------------------------------------------------------------

  /** The strings the verifier hashes. */
  ghost function Hashed(rows: seq<Row>): set<string> {
    (set i | 0 <= i < |rows| :: rows[i].payloadJson)
    + (set i | 0 <= i < |rows| :: rows[i].payloadHash + rows[i].prevHash)
  }

  ghost predicate Collides(h: Hash, s: set<string>) {
    exists x, y :: x in s && y in s && x != y && h(x) == h(y)
  }

  /** The hash fails on `s`: a collision, or a preimage of the genesis value. */
  ghost predicate HashFails(h: Hash, s: set<string>) {
    Collides(h, s) || exists x :: x in s && h(x) == GENESIS
  }

  ghost predicate SameRow(a: Row, b: Row) {
    && a.payloadJson == b.payloadJson && a.payloadHash == b.payloadHash
    && a.prevHash == b.prevHash && a.chainHash == b.chainHash
  }

  ghost predicate SameContent(a: seq<Row>, b: seq<Row>) {
    |a| == |b| && forall i :: 0 <= i < |a| ==> SameRow(a[i], b[i])
  }

  lemma {:induction false} HashedRow(rows: seq<Row>, i: nat)
    requires i < |rows|
    ensures rows[i].payloadJson in Hashed(rows)
    ensures rows[i].payloadHash + rows[i].prevHash in Hashed(rows)
  {
  }

  lemma {:induction false} SameLengthSplit(a: string, b: string, c: string, d: string)
    requires a + b == c + d && |a| == |c|
    ensures a == c && b == d
  {
    assert a == (a + b)[..|a|] && c == (c + d)[..|c|];
    assert b == (a + b)[|a|..] && d == (c + d)[|c|..];
  }

  /** Two checked rows with one chain hash are the same row, or the hash fails on what was hashed. */
  lemma {:induction false} SameChainHashSameRow(h: Hash, a: Row, b: Row, prevA: string, prevB: string, s: set<string>)
    requires Check(h, prevA, a) == None && Check(h, prevB, b) == None && a.chainHash == b.chainHash
    requires {a.payloadJson, b.payloadJson, a.payloadHash + a.prevHash, b.payloadHash + b.prevHash} <= s
    ensures (SameRow(a, b) && prevA == prevB) || Collides(h, s)
  {
    if a.payloadHash + a.prevHash == b.payloadHash + b.prevHash {
      SameLengthSplit(a.payloadHash, a.prevHash, b.payloadHash, b.prevHash);
      assert h(a.payloadJson) == h(b.payloadJson);
    } else {
      assert h(a.payloadHash + a.prevHash) == h(b.payloadHash + b.prevHash);
    }
  }

  lemma {:induction false} HashedPrefix(rows: seq<Row>, n: nat)
    requires n <= |rows|
    ensures Hashed(rows[..n]) <= Hashed(rows)
  {
  }

  /**
   * A head hash pins the whole history: two verifying chains with the same head have the same
   * length and the same payloads and hashes, row by row, or the hash fails on strings they hashed.
   */
  lemma {:induction false} HeadPinsHistory(h: Hash, a: seq<Row>, b: seq<Row>, s: set<string>)
    requires Verifies(h, a) && Verifies(h, b) && Head(a) == Head(b)
    requires Hashed(a) + Hashed(b) <= s
    ensures SameContent(a, b) || HashFails(h, s)
  {
    hide Check, CheckAt, Hashed;
    if a != [] && b != [] {
      var a', x, b', y := a[..|a| - 1], a[|a| - 1], b[..|b| - 1], b[|b| - 1];
      assert a == a' + [x] && b == b' + [y];
      VerifiesSnoc(h, a', x);
      VerifiesSnoc(h, b', y);
      HashedRow(a, |a| - 1);
      HashedRow(b, |b| - 1);
      SameChainHashSameRow(h, x, y, Head(a'), Head(b'), s);
      if !Collides(h, s) {
        HashedPrefix(a, |a| - 1);
        HashedPrefix(b, |b| - 1);
        HeadPinsHistory(h, a', b', s);
      }
    } else if a != [] {
      EmptyHasNoTwin(h, a, s);
    } else if b != [] {
      EmptyHasNoTwin(h, b, s);
    }
  }

  lemma {:induction false} EmptyHasNoTwin(h: Hash, rows: seq<Row>, s: set<string>)
    requires rows != [] && Verifies(h, rows) && Head(rows) == GENESIS && Hashed(rows) <= s
    ensures HashFails(h, s)
  {
    var n := |rows| - 1;
    HashedRow(rows, n);
    assert CheckAt(h, rows, n) == None;
    assert h(rows[n].payloadHash + rows[n].prevHash) == GENESIS;
  }

  /** Truncation is invisible to the verifier, but it always changes the head, unless the hash fails. */
  lemma {:induction false} TruncationShowsInHead(h: Hash, rows: seq<Row>, n: nat)
    requires Verifies(h, rows) && n < |rows|
    ensures Verifies(h, rows[..n])
    ensures Head(rows[..n]) != Head(rows) || HashFails(h, Hashed(rows))
  {
    assert forall i :: 0 <= i < n ==> rows[..n][..i] == rows[..i];
    assert forall i :: 0 <= i < n ==> CheckAt(h, rows[..n], i) == CheckAt(h, rows, i);
    assert forall i :: 0 <= i < n ==> rows[..n][i] == rows[i];
    if Head(rows[..n]) == Head(rows) {
      HeadPinsHistory(h, rows[..n], rows, Hashed(rows));
    }
  }

  lemma {:induction false} EditLocality(h: Hash, rows: seq<Row>, i: nat, r: Row)
    requires i < |rows|
    ensures forall j :: 0 <= j < |rows| && j != i && j != i + 1 ==> CheckAt(h, rows[i := r], j) == CheckAt(h, rows, j)
    ensures CheckAt(h, rows[i := r], i) == Check(h, Head(rows[..i]), r)
    ensures i + 1 < |rows| ==> CheckAt(h, rows[i := r], i + 1) == Check(h, r.chainHash, rows[i + 1])
  {
    var edited := rows[i := r];
    forall j | 0 <= j < |rows| && j != i && j != i + 1
      ensures CheckAt(h, edited, j) == CheckAt(h, rows, j)
    {
      if j < i {
        assert edited[..j] == rows[..j];
      } else {
        assert edited[..j][j - 1] == rows[..j][j - 1];
      }
    }
    assert edited[..i] == rows[..i];
    if i + 1 < |rows| {
      assert edited[..i + 1][i] == r;
    }
  }

  /**
   * Editing the covered content of one row of a verifying chain is reported at that row or the
   * next one; only an edit of the last row can pass, and then the head changes.
   */
  lemma {:induction false} EditIsLocated(h: Hash, rows: seq<Row>, i: nat, r: Row)
    requires Verifies(h, rows) && i < |rows| && !SameRow(r, rows[i])
    ensures var edited := rows[i := r];
      || FirstBreak(h, edited, i)
      || FirstBreak(h, edited, i + 1)
      || (i == |rows| - 1 && Verifies(h, edited) && Head(edited) != Head(rows))
      || Collides(h, Hashed(rows) + Hashed(edited))
  {
    var edited := rows[i := r];
    EditLocality(h, rows, i, r);
    forall j | 0 <= j < i
      ensures CheckAt(h, edited, j) == None
    {
      assert CheckAt(h, rows, j) == None;
    }
    if CheckAt(h, edited, i) == None {
      if r.chainHash == rows[i].chainHash {
        EditWithSameChainHash(h, rows, i, r);
      } else if i + 1 < |rows| {
        assert CheckAt(h, rows, i + 1) == None && rows[..i + 1][i] == rows[i];
        assert FirstBreak(h, edited, i + 1);
      }
    }
  }

  lemma {:induction false} EditWithSameChainHash(h: Hash, rows: seq<Row>, i: nat, r: Row)
    requires Verifies(h, rows) && i < |rows| && !SameRow(r, rows[i])
    requires Check(h, Head(rows[..i]), r) == None && r.chainHash == rows[i].chainHash
    ensures Collides(h, Hashed(rows) + Hashed(rows[i := r]))
  {
    HashedRow(rows, i);
    HashedRow(rows[i := r], i);
    assert CheckAt(h, rows, i) == None;
    SameChainHashSameRow(h, r, rows[i], Head(rows[..i]), Head(rows[..i]), Hashed(rows) + Hashed(rows[i := r]));
  }

  // ---------------------------------------------------------------------------
  // Export and the offline verifier
  // ---------------------------------------------------------------------------

  datatype Exported = Exported(seqNo: int, recordId: string, timestamp: string, payload: Value,
                               payloadHash: string, prevHash: string, chainHash: string)

  /** `rowToRecord`; None is the exception `JSON.parse` raises. */
  function ToRecord(num: Numbers, r: Row): Option<Exported> {
    match Parse(num, r.payloadJson)
    case None => None
    case Some(v) => Some(Exported(r.seqNo, r.recordId, r.timestamp, v, r.payloadHash, r.prevHash, r.chainHash))
  }

  /** The record carries the row's columns unchanged, and the payload its text parses to. */
  predicate Exports(num: Numbers, r: Row, e: Exported) {
    && Parse(num, r.payloadJson) == Some(e.payload)
    && e.seqNo == r.seqNo && e.recordId == r.recordId && e.timestamp == r.timestamp
    && e.payloadHash == r.payloadHash && e.prevHash == r.prevHash && e.chainHash == r.chainHash
  }

  lemma {:induction false} RecordExports(num: Numbers, r: Row)
    ensures ToRecord(num, r).Some? <==> Parse(num, r.payloadJson).Some?
    ensures ToRecord(num, r).Some? ==> Exports(num, r, ToRecord(num, r).value)
  {
    hide Parse;
  }

  ghost predicate Parseable(num: Numbers, rows: seq<Row>) {
    forall i :: 0 <= i < |rows| ==> ToRecord(num, rows[i]).Some?
  }

  function ExportChain(num: Numbers, rows: seq<Row>): Option<seq<Exported>> {
    if rows == [] then Some([])
    else
      match (ExportChain(num, rows[..|rows| - 1]), ToRecord(num, rows[|rows| - 1]))
      case (Some(es), Some(e)) => Some(es + [e])
      case _ => None
  }

  /** The export fails only on a payload that does not parse, and otherwise is row by row. */
  lemma {:induction false} ExportIsRowByRow(num: Numbers, rows: seq<Row>)
    ensures ExportChain(num, rows).Some? <==> Parseable(num, rows)
    ensures ExportChain(num, rows).Some? ==>
      var chain := ExportChain(num, rows).value;
      && |chain| == |rows|
      && forall i :: 0 <= i < |rows| ==> ToRecord(num, rows[i]) == Some(chain[i]) && Exports(num, rows[i], chain[i])
  {
    hide ToRecord, Exports;
    if rows != [] {
      var n := |rows| - 1;
      ExportIsRowByRow(num, rows[..n]);
      assert Parseable(num, rows) <==> Parseable(num, rows[..n]) && ToRecord(num, rows[n]).Some? by {
        assert forall i :: 0 <= i < n ==> rows[..n][i] == rows[i];
      }
      RecordExports(num, rows[n]);
    }
  }

  /** What the offline verifier re-hashes: the payload it parsed, canonicalised again. */
  function Reprinted(num: Numbers, r: Row): Row {
    match Parse(num, r.payloadJson)
    case None => r
    case Some(v) => r.(payloadJson := CanonicalStringify(Audit, v))
  }

  function ReprintedRows(num: Numbers, rows: seq<Row>): (r: seq<Row>)
    ensures |r| == |rows| && forall i :: 0 <= i < |rows| ==> r[i] == Reprinted(num, rows[i])
  {
    seq(|rows|, i requires 0 <= i < |rows| => Reprinted(num, rows[i]))
  }

  function OfflineCheck(h: Hash, prev: string, e: Exported): Option<Fault> {
    if h(CanonicalStringify(Audit, e.payload)) != e.payloadHash then Some(PayloadMismatch)
    else if e.prevHash != prev then Some(PrevMismatch)
    else if h(e.payloadHash + e.prevHash) != e.chainHash then Some(ChainMismatch)
    else None
  }

  function OfflineHead(chain: seq<Exported>): string {
    if chain == [] then GENESIS else chain[|chain| - 1].chainHash
  }

  function OfflineCheckAt(h: Hash, chain: seq<Exported>, i: int): Option<Fault>
    requires 0 <= i < |chain|
  {
    OfflineCheck(h, OfflineHead(chain[..i]), chain[i])
  }

  ghost predicate OfflineVerifies(h: Hash, chain: seq<Exported>) {
    forall i :: 0 <= i < |chain| ==> OfflineCheckAt(h, chain, i) == None
  }

  ghost predicate OfflineFirstBreak(h: Hash, chain: seq<Exported>, i: int) {
    && 0 <= i < |chain| && OfflineCheckAt(h, chain, i).Some?
    && forall j :: 0 <= j < i ==> OfflineCheckAt(h, chain, j) == None
  }

  /** `headDiffers` is the warning printed when the claimed head is not the recomputed one; the exit code ignores it. */
  datatype OfflineVerdict = OfflineVerdict(ok: bool, brokenAt: Option<int>, fault: Option<Fault>, headDiffers: bool)

  method VerifyExportedFile(h: Hash, chain: seq<Exported>, claimedHead: string) returns (v: OfflineVerdict)
    ensures v.ok <==> OfflineVerifies(h, chain)
    ensures v.ok ==> v.brokenAt == None && (v.headDiffers <==> OfflineHead(chain) != claimedHead)
    ensures !v.ok ==> exists i ::
      && OfflineFirstBreak(h, chain, i)
      && v.brokenAt == Some(chain[i].seqNo) && v.fault == OfflineCheckAt(h, chain, i)
  {
    hide CanonicalStringify;
    var prev: string := GENESIS;
    var ok := true;
    var brokenAt: Option<int> := None;
    var fault: Option<Fault> := None;
    for i := 0 to |chain|
      invariant ok && brokenAt == None && prev == OfflineHead(chain[..i])
      invariant forall j :: 0 <= j < i ==> OfflineCheckAt(h, chain, j) == None
    {
      var r := chain[i];
      if h(CanonicalStringify(Audit, r.payload)) != r.payloadHash {
        ok, brokenAt, fault := false, Some(r.seqNo), Some(PayloadMismatch);
        assert OfflineFirstBreak(h, chain, i);
        break;
      }
      if r.prevHash != prev {
        ok, brokenAt, fault := false, Some(r.seqNo), Some(PrevMismatch);
        assert OfflineFirstBreak(h, chain, i);
        break;
      }
      if h(r.payloadHash + r.prevHash) != r.chainHash {
        ok, brokenAt, fault := false, Some(r.seqNo), Some(ChainMismatch);
        assert OfflineFirstBreak(h, chain, i);
        break;
      }
      prev := r.chainHash;
    }
    assert ok ==> chain[..|chain|] == chain;
    v := OfflineVerdict(ok, brokenAt, fault, ok && prev != claimedHead);
  }

  /** Text the canonical printer could have written. */
  predicate IsCanonical(num: Numbers, text: string) {
    Parse(num, text).Some? && CanonicalStringify(Audit, Parse(num, text).value) == text
  }

  lemma {:induction false} ExportHeads(num: Numbers, rows: seq<Row>, chain: seq<Exported>, i: nat)
    requires ExportChain(num, rows) == Some(chain) && i <= |rows|
    ensures |chain| == |rows|
    ensures OfflineHead(chain[..i]) == Head(rows[..i])
  {
    hide Parse, ExportChain;
    ExportIsRowByRow(num, rows);
    if i > 0 {
      assert ToRecord(num, rows[i - 1]) == Some(chain[i - 1]);
    }
  }

  /** Row by row, the offline test is the live test on the reprinted row. */
  lemma {:induction false} OfflineIsLiveOnReprinted(num: Numbers, h: Hash, rows: seq<Row>, chain: seq<Exported>, i: nat)
    requires ExportChain(num, rows) == Some(chain) && i < |rows|
    ensures |chain| == |rows|
    ensures OfflineCheckAt(h, chain, i) == Check(h, Head(rows[..i]), Reprinted(num, rows[i]))
  {
    ExportIsRowByRow(num, rows);
    ExportHeads(num, rows, chain, i);
    assert ToRecord(num, rows[i]) == Some(chain[i]);
  }

  /** On canonical payloads the two verifiers give the same verdict and the same first break. */
  lemma {:induction false} VerifiersAgreeOnCanonical(num: Numbers, h: Hash, rows: seq<Row>)
    requires forall i :: 0 <= i < |rows| ==> IsCanonical(num, rows[i].payloadJson)
    ensures ExportChain(num, rows).Some? && |ExportChain(num, rows).value| == |rows|
    ensures var chain := ExportChain(num, rows).value;
      && (OfflineVerifies(h, chain) <==> Verifies(h, rows))
      && (forall i :: OfflineFirstBreak(h, chain, i) <==> FirstBreak(h, rows, i))
      && (forall i :: 0 <= i < |rows| ==> OfflineCheckAt(h, chain, i) == CheckAt(h, rows, i))
  {
    forall i | 0 <= i < |rows|
      ensures ToRecord(num, rows[i]).Some?
    {
      assert IsCanonical(num, rows[i].payloadJson);
    }
    ExportIsRowByRow(num, rows);
    var chain := ExportChain(num, rows).value;
    forall i | 0 <= i < |rows|
      ensures OfflineCheckAt(h, chain, i) == CheckAt(h, rows, i)
    {
      assert IsCanonical(num, rows[i].payloadJson);
      OfflineIsLiveOnReprinted(num, h, rows, chain, i);
    }
  }

  lemma {:induction false} NewRowIsCanonical(num: Numbers, h: Hash, prev: string, seqNo: int, e: Entry)
    requires WellFormed(num, e.payload)
    ensures IsCanonical(num, NewRow(h, prev, seqNo, e).payloadJson)
  {
    CanonicalIsStable(num, Audit, e.payload);
  }

  /** `append` only ever stores canonical payloads. */
  lemma {:induction false} BuiltIsCanonical(num: Numbers, h: Hash, entries: seq<Entry>)
    requires forall i :: 0 <= i < |entries| ==> WellFormed(num, entries[i].payload)
    ensures forall i :: 0 <= i < |entries| ==> IsCanonical(num, Built(h, entries)[i].payloadJson)
  {
    hide IsCanonical, NewRow, WellFormed;
    if entries != [] {
      var n := |entries| - 1;
      BuiltIsCanonical(num, h, entries[..n]);
      NewRowIsCanonical(num, h, Head(Built(h, entries[..n])), n + 1, entries[n]);
    }
  }

  /** So a chain built by appending also passes the offline verifier. */
  lemma {:induction false} BuiltPassesOffline(num: Numbers, h: Hash, entries: seq<Entry>)
    requires forall i :: 0 <= i < |entries| ==> WellFormed(num, entries[i].payload)
    ensures var chain := ExportChain(num, Built(h, entries)); chain.Some? && OfflineVerifies(h, chain.value)
  {
    BuiltIsCanonical(num, h, entries);
    BuiltVerifies(h, entries);
    VerifiersAgreeOnCanonical(num, h, Built(h, entries));
  }

  /**
   * Exactly when a chain the live verifier accepts is accepted offline: when every payload is
   * canonical text, unless the hash collides on a payload and its reprinting.
   */
  lemma {:induction false} OfflineAcceptsExactly(num: Numbers, h: Hash, rows: seq<Row>)
    requires Verifies(h, rows) && Parseable(num, rows)
    ensures ExportChain(num, rows).Some?
    ensures
      || Collides(h, Hashed(rows) + Hashed(ReprintedRows(num, rows)))
      || (OfflineVerifies(h, ExportChain(num, rows).value)
          <==> forall i :: 0 <= i < |rows| ==> IsCanonical(num, rows[i].payloadJson))
  {
    var reprinted := ReprintedRows(num, rows);
    ExportIsRowByRow(num, rows);
    var chain := ExportChain(num, rows).value;
    if forall i :: 0 <= i < |rows| ==> IsCanonical(num, rows[i].payloadJson) {
      VerifiersAgreeOnCanonical(num, h, rows);
    } else if OfflineVerifies(h, chain) {
      var i :| 0 <= i < |rows| && !IsCanonical(num, rows[i].payloadJson);
      OfflineIsLiveOnReprinted(num, h, rows, chain, i);
      assert OfflineCheckAt(h, chain, i) == None && CheckAt(h, rows, i) == None;
      assert ToRecord(num, rows[i]).Some?;
      HashedRow(rows, i);
      HashedRow(reprinted, i);
      assert h(rows[i].payloadJson) == h(reprinted[i].payloadJson) && rows[i].payloadJson != reprinted[i].payloadJson;
    }
  }

  lemma {:induction false} CanonicalReprints(num: Numbers, r: Row)
    requires IsCanonical(num, r.payloadJson)
    ensures Reprinted(num, r) == r && ToRecord(num, r).Some?
  {
  }

  /** If reprinting `edited` gives a verifying chain, the offline verifier accepts `edited`. */
  lemma {:induction false} ReprintedVerifiesOffline(
    num: Numbers, h: Hash, rows: seq<Row>, edited: seq<Row>, chain: seq<Exported>)
    requires Verifies(h, rows) && |edited| == |rows| && ExportChain(num, edited) == Some(chain)
    requires forall j :: 0 <= j < |rows| ==>
      Reprinted(num, edited[j]) == rows[j] && edited[j].chainHash == rows[j].chainHash
    ensures |chain| == |rows| && OfflineVerifies(h, chain)
  {
    ExportHeads(num, edited, chain, 0);
    forall j | 0 <= j < |chain|
      ensures OfflineCheckAt(h, chain, j) == None
    {
      OfflineIsLiveOnReprinted(num, h, edited, chain, j);
      assert CheckAt(h, rows, j) == None;
      assert j > 0 ==> edited[..j][j - 1] == edited[j - 1] && rows[..j][j - 1] == rows[j - 1];
    }
  }

  /**
   * The converse gap: re-spacing or re-ordering one stored payload breaks the chain for the live
   * verifier, at that row, and is invisible to the offline one.
   */
  lemma {:induction false} ReformattingIsSeenLiveOnly(num: Numbers, h: Hash, rows: seq<Row>, i: nat, text: string)
    requires Verifies(h, rows) && i < |rows|
    requires forall j :: 0 <= j < |rows| ==> IsCanonical(num, rows[j].payloadJson)
    requires text != rows[i].payloadJson
    requires Parse(num, text).Some? && CanonicalStringify(Audit, Parse(num, text).value) == rows[i].payloadJson
    ensures var edited := rows[i := rows[i].(payloadJson := text)];
      && (FirstBreak(h, edited, i) || Collides(h, {text, rows[i].payloadJson}))
      && ExportChain(num, edited).Some? && OfflineVerifies(h, ExportChain(num, edited).value)
  {
    var r := rows[i].(payloadJson := text);
    var edited := rows[i := r];
    ReformattingBreaksLive(h, rows, i, text);
    forall j | 0 <= j < |rows|
      ensures Reprinted(num, edited[j]) == rows[j] && ToRecord(num, edited[j]).Some?
    {
      CanonicalReprints(num, rows[j]);
    }
    ExportIsRowByRow(num, edited);
    ReprintedVerifiesOffline(num, h, rows, edited, ExportChain(num, edited).value);
  }

  /** So is re-writing its numbers: any notation of the same numbers, at any depth, prints back alike. */
  lemma {:induction false} RewrittenNumbersAreSeenLiveOnly(num: Numbers, h: Hash, rows: seq<Row>, i: nat, v: Value)
    requires Verifies(h, rows) && i < |rows|
    requires forall j :: 0 <= j < |rows| ==> IsCanonical(num, rows[j].payloadJson)
    requires Raw(v) && Json(v) && Print(v) != rows[i].payloadJson
    requires CanonicalStringify(Audit, Read(num, v)) == rows[i].payloadJson
    ensures var edited := rows[i := rows[i].(payloadJson := Print(v))];
      && (FirstBreak(h, edited, i) || Collides(h, {Print(v), rows[i].payloadJson}))
      && ExportChain(num, edited).Some? && OfflineVerifies(h, ExportChain(num, edited).value)
  {
    hide Print, CanonicalStringify, IsCanonical, Raw, Read;
    ParsePrintReads(num, v);
    ReformattingIsSeenLiveOnly(num, h, rows, i, Print(v));
  }

  lemma {:induction false} ReformattingBreaksLive(h: Hash, rows: seq<Row>, i: nat, text: string)
    requires Verifies(h, rows) && i < |rows| && text != rows[i].payloadJson
    ensures FirstBreak(h, rows[i := rows[i].(payloadJson := text)], i) || Collides(h, {text, rows[i].payloadJson})
  {
    var edited := rows[i := rows[i].(payloadJson := text)];
    EditLocality(h, rows, i, rows[i].(payloadJson := text));
    assert CheckAt(h, rows, i) == None;
    forall j | 0 <= j < i
      ensures CheckAt(h, edited, j) == None
    {
      assert CheckAt(h, rows, j) == None;
    }
  }

  // ---------------------------------------------------------------------------
  // What an edit of the exported file can hide
  // ---------------------------------------------------------------------------

  /**
   * Exactly which edits of one exported payload the offline verifier accepts: those that leave
   * the value the same to the audit printer, unless the hash collides on the two texts.
   */
  lemma {:induction false} OfflineSeesUpToSame(num: Numbers, h: Hash, chain: seq<Exported>, i: nat, v: Value)
    requires OfflineVerifies(h, chain) && i < |chain| && WellFormed(num, chain[i].payload) && WellFormed(num, v)
    ensures
      || Collides(h, {CanonicalStringify(Audit, chain[i].payload), CanonicalStringify(Audit, v)})
      || (OfflineVerifies(h, chain[i := chain[i].(payload := v)]) <==> Same(Audit, chain[i].payload, v))
  {
    hide Same, CanonicalStringify;
    var edited := chain[i := chain[i].(payload := v)];
    CanonicalDecidesSame(num, Audit, chain[i].payload, v);
    forall j | 0 <= j < |chain|
      ensures OfflineHead(edited[..j]) == OfflineHead(chain[..j])
      ensures j != i ==> OfflineCheckAt(h, edited, j) == OfflineCheckAt(h, chain, j)
    {
    }
    assert OfflineCheckAt(h, chain, i) == None;
    assert OfflineCheckAt(h, edited, i) == OfflineCheck(h, OfflineHead(chain[..i]), edited[i]);
    if OfflineVerifies(h, edited) {
      assert OfflineCheckAt(h, edited, i) == None;
    }
  }

  /** The same of the file's text: an edit of one payload passes exactly if both texts read as the same value. */
  lemma {:induction false} OfflineEditExactly(
    num: Numbers, h: Hash, chain: seq<Exported>, i: nat, before: string, after: string)
    requires Settles(num) && OfflineVerifies(h, chain) && i < |chain|
    requires Parse(num, before) == Some(chain[i].payload) && Parse(num, after).Some?
    ensures var v := Parse(num, after).value;
      || Collides(h, {CanonicalStringify(Audit, chain[i].payload), CanonicalStringify(Audit, v)})
      || (OfflineVerifies(h, chain[i := chain[i].(payload := v)]) <==> Same(Audit, chain[i].payload, v))
  {
    hide Same, CanonicalStringify, WellFormed, Parse;
    ParsedIsWellFormed(num, before);
    ParsedIsWellFormed(num, after);
    OfflineSeesUpToSame(num, h, chain, i, Parse(num, after).value);
  }

  /** So a member keyed `__proto__` added to an exported payload object goes unseen. */
  lemma {:induction false} AddedProtoPassesOffline(
    num: Numbers, h: Hash, chain: seq<Exported>, i: nat, ms: Members, v: Value)
    requires OfflineVerifies(h, chain) && i < |chain| && chain[i].payload == Obj(ms)
    requires WellFormed(num, Obj(ms)) && WellFormed(num, v) && !Has(ms, PROTO)
    ensures OfflineVerifies(h, chain[i := chain[i].(payload := Obj(MCons(PROTO, v, ms)))])
  {
    hide CanonicalStringify;
    var edited := chain[i := chain[i].(payload := Obj(MCons(PROTO, v, ms)))];
    ProtoMemberIsNotPrinted(num, v, ms);
    forall j | 0 <= j < |chain|
      ensures OfflineCheckAt(h, edited, j) == OfflineCheckAt(h, chain, j)
    {
      assert OfflineHead(edited[..j]) == OfflineHead(chain[..j]);
    }
  }

  /** And a payload appended with such a member is stored, and hashed, without it. */
  lemma {:induction false} AppendLosesProto(
    num: Numbers, h: Hash, prev: string, seqNo: int, e: Entry, ms: Members, v: Value)
    requires e.payload == Obj(MCons(PROTO, v, ms)) && WellFormed(num, e.payload)
    ensures NewRow(h, prev, seqNo, e) == NewRow(h, prev, seqNo, e.(payload := Obj(ms)))
  {
    ProtoMemberIsNotPrinted(num, v, ms);
  }
}
