/** The stored document of one text-mode request and the writes that the quorum service makes to it. */
module TextRequests {
  import opened Prelude
  import opened HashTally

  type Address = string

  datatype Status = PendingStoreKey | Queued | Dispatched | Running | Accepted | Rejected | Failed

  datatype EntryStatus = Pending | Claimed | Completed | TimedOut

  /** One value of `node_assignments`. Times are in seconds. */
  datatype Entry = Entry(status: EntryStatus, claimedAt: Option<real>)

  datatype LeaderResult = LeaderResult(hash: Hash, confidence: Option<nat>)

  /** One verdict row; the table is kept per request, as `find({"request_id": ...})` returns it. */
  datatype VerdictRow = VerdictRow(verifier: Address, accepted: bool, hash: Hash, confidence: nat)

  datatype TextRequest = TextRequest(
    taskId: string,
    leader: Address,
    verifiers: seq<Address>,
    status: Status,
    result: Option<LeaderResult>,
    commitment: Option<Hash>,
    confirms: nat,
    rejects: nat,
    confidence: nat,
    rows: seq<VerdictRow>,
    nodes: map<Address, Entry>)

  /** A claim may stay open this many seconds. */
  const CLAIM_TIMEOUT := 300.0

  /** The statuses that polling and timeouts treat as unfinished. */
  predicate Open(s: Status) {
    s == Queued || s == Dispatched || s == Running
  }

  predicate Final(s: Status) {
    s == Accepted || s == Rejected || s == Failed
  }

  function Quorum(t: TextRequest): seq<Address> {
    [t.leader] + t.verifiers
  }

  function TotalNodes(t: TextRequest): nat {
    1 + |t.verifiers|
  }

  function Hashes(rows: seq<VerdictRow>): seq<Hash> {
    seq(|rows|, i requires 0 <= i < |rows| => rows[i].hash)
  }

  function Voters(rows: seq<VerdictRow>): seq<Address> {
    seq(|rows|, i requires 0 <= i < |rows| => rows[i].verifier)
  }

  // --- Creation ----------------------------------------------------------------------

  function Create(taskId: string, leader: Address, verifiers: seq<Address>, keyPending: bool): TextRequest {
    TextRequest(
      taskId, leader, verifiers, if keyPending then PendingStoreKey else Queued,
      None, None, 0, 0, 0, [],
      map a | a in [leader] + verifiers :: Entry(Pending, None))
  }

  // --- Submissions -------------------------------------------------------------------

  /** Dotted writes keep the other fields of an entry and create a missing one. */
  function WithEntryStatus(nodes: map<Address, Entry>, node: Address, status: EntryStatus): map<Address, Entry> {
    nodes[node := Entry(status, if node in nodes then nodes[node].claimedAt else None)]
  }

  /** No status is checked: a late or repeated leader result overwrites the stored one. */
  function LeaderWrite(t: TextRequest, result: LeaderResult): TextRequest {
    LeaderWriteOver(t, result, t.nodes)
  }

  /** The dotted part of the write rewrites the entries as they were when it read them. */
  function LeaderWriteOver(t: TextRequest, result: LeaderResult, base: map<Address, Entry>): TextRequest {
    t.(result := Some(result), commitment := Some(result.hash), nodes := WithEntryStatus(base, t.leader, Completed))
  }

  /** Position of the verifier's row, or `|rows|` when it has none. */
  function RowOf(rows: seq<VerdictRow>, verifier: Address): (i: nat)
    ensures i <= |rows|
    ensures i < |rows| ==> rows[i].verifier == verifier
    ensures forall j :: 0 <= j < i ==> rows[j].verifier != verifier
  {
    if rows == [] then 0
    else if rows[0].verifier == verifier then 0
    else 1 + RowOf(rows[1..], verifier)
  }

  /** `update_one` with `upsert=True` keyed by the verifier. */
  function Upsert(rows: seq<VerdictRow>, row: VerdictRow): seq<VerdictRow> {
    var i := RowOf(rows, row.verifier);
    if i < |rows| then rows[i := row] else rows + [row]
  }

  /** Only an assigned verifier may store a verdict. */
  function VerifierWrite(t: TextRequest, row: VerdictRow): TextRequest {
    if row.verifier in t.verifiers then t.(rows := Upsert(t.rows, row)) else t
  }

  // --- Finalizing --------------------------------------------------------------------

  /** Sum of the leader's confidence and that of every verdict equal to the leader's hash. */
  function ConfidenceTotal(result: LeaderResult, rows: seq<VerdictRow>): nat {
    if rows == [] then (if result.confidence.Some? then result.confidence.value else 0)
    else
      var last := rows[|rows| - 1];
      ConfidenceTotal(result, rows[..|rows| - 1]) + (if last.hash == result.hash then last.confidence else 0)
  }

  function ConfidenceCount(result: LeaderResult, rows: seq<VerdictRow>): nat {
    if rows == [] then (if result.confidence.Some? then 1 else 0)
    else
      ConfidenceCount(result, rows[..|rows| - 1]) + (if rows[|rows| - 1].hash == result.hash then 1 else 0)
  }

  function AggregatedConfidence(winner: Hash, result: LeaderResult, rows: seq<VerdictRow>, stored: nat): nat {
    var count := ConfidenceCount(result, rows);
    if winner == result.hash && count > 0 then ConfidenceTotal(result, rows) / count else stored
  }

  /** Every confidence that enters the average lies between `low` and `high`. */
  ghost predicate ConfidencesWithin(result: LeaderResult, rows: seq<VerdictRow>, low: nat, high: nat) {
    && (result.confidence.Some? ==> low <= result.confidence.value <= high)
    && (forall r :: r in rows && r.hash == result.hash ==> low <= r.confidence <= high)
  }

  lemma {:induction false} ConfidenceSumWithin(result: LeaderResult, rows: seq<VerdictRow>, low: nat, high: nat)
    requires ConfidencesWithin(result, rows, low, high)
    ensures low * ConfidenceCount(result, rows) <= ConfidenceTotal(result, rows) <= high * ConfidenceCount(result, rows)
  {
    if rows != [] {
      var n := |rows| - 1;
      assert rows[n] in rows && forall r :: r in rows[..n] ==> r in rows;
      ConfidenceSumWithin(result, rows[..n], low, high);
      OneMore(low, ConfidenceCount(result, rows[..n]));
      OneMore(high, ConfidenceCount(result, rows[..n]));
    }
  }

  /**
   * The stored confidence of an accepted leader hash lies between the least and the greatest
   * confidence of the leader and the verdicts that agree with it; another winner keeps the
   * old value.
   */
  lemma ConfidenceIsOfAgreeing(winner: Hash, result: LeaderResult, rows: seq<VerdictRow>, stored: nat, low: nat, high: nat)
    requires ConfidencesWithin(result, rows, low, high)
    ensures winner == result.hash && ConfidenceCount(result, rows) > 0 ==>
              low <= AggregatedConfidence(winner, result, rows, stored) <= high
    ensures winner != result.hash ==> AggregatedConfidence(winner, result, rows, stored) == stored
  {
    ConfidenceSumWithin(result, rows, low, high);
    if ConfidenceCount(result, rows) > 0 {
      QuotientWithin(ConfidenceTotal(result, rows), ConfidenceCount(result, rows), low, high);
    }
  }

  /** The confidences that count, the leader's own first. */
  function Agreeing(result: LeaderResult, rows: seq<VerdictRow>): seq<nat> {
    (if result.confidence.Some? then [result.confidence.value] else []) + AgreeingRows(result.hash, rows)
  }

  function AgreeingRows(h: Hash, rows: seq<VerdictRow>): seq<nat> {
    if rows == [] then []
    else (if rows[0].hash == h then [rows[0].confidence] else []) + AgreeingRows(h, rows[1..])
  }

  lemma {:induction false} AgreeingRowsAppend(h: Hash, rows: seq<VerdictRow>, row: VerdictRow)
    ensures AgreeingRows(h, rows + [row]) == AgreeingRows(h, rows) + if row.hash == h then [row.confidence] else []
  {
    if rows == [] {
      assert (rows + [row])[1..] == [];
    } else {
      AgreeingRowsAppend(h, rows[1..], row);
      assert (rows + [row])[1..] == rows[1..] + [row];
    }
  }

  lemma {:induction false} AgreeingAreCounted(result: LeaderResult, rows: seq<VerdictRow>)
    ensures ConfidenceTotal(result, rows) == Sum(Agreeing(result, rows))
    ensures ConfidenceCount(result, rows) == |Agreeing(result, rows)|
  {
    if rows != [] {
      var n := |rows| - 1;
      var last := if rows[n].hash == result.hash then [rows[n].confidence] else [];
      AgreeingAreCounted(result, rows[..n]);
      assert rows == rows[..n] + [rows[n]];
      AgreeingRowsAppend(result.hash, rows[..n], rows[n]);
      assert Agreeing(result, rows) == Agreeing(result, rows[..n]) + last;
      SumOfBoth(Agreeing(result, rows[..n]), last);
    }
  }

  /** The confidence of an accepted leader hash is the average of the leader's and the agreeing ones, rounded down. */
  lemma ConfidenceIsAverage(winner: Hash, result: LeaderResult, rows: seq<VerdictRow>, stored: nat)
    ensures
      var agreeing := Agreeing(result, rows);
      AggregatedConfidence(winner, result, rows, stored) ==
        if winner == result.hash && agreeing != [] then Sum(agreeing) / |agreeing| else stored
  {
    AgreeingAreCounted(result, rows);
  }

  /**
   * The unconditional write of a finalizer that saw `result`, `stored` and `rows` when it
   * read, applied to the document as it is now.
   */
  function WriteDecision(t: TextRequest, result: LeaderResult, stored: nat, rows: seq<VerdictRow>): TextRequest {
    match Decide(|t.verifiers|, result.hash, Hashes(rows))
    case Undecided => t
    case Accept(h, confirms, rejects) =>
      t.(status := Accepted, commitment := Some(h),
         confidence := AggregatedConfidence(h, result, rows, stored),
         confirms := confirms, rejects := rejects)
    case Reject(confirms, rejects) =>
      t.(status := Rejected, confirms := confirms, rejects := rejects)
  }

  /** What lets a finalizer go past its first read: a queued request with a usable leader hash. */
  predicate Decidable(t: TextRequest) {
    t.status == Queued && t.result.Some? && t.result.value.hash != ""
  }

  /** The finalizer as one step. */
  function Finalize(t: TextRequest): TextRequest {
    if Decidable(t) then WriteDecision(t, t.result.value, t.confidence, t.rows) else t
  }

  /**
   * What a finalizer leaves in the document, in terms of the votes: accepted with a hash
   * exactly if two thirds hold it, rejected exactly if everybody has voted and none has two
   * thirds, otherwise untouched; with the largest count, the rest, and nothing else changed.
   */
  lemma FinalizedByVotes(t: TextRequest)
    requires t.status == Queued && t.result.Some? && t.result.value.hash != "" && |t.rows| <= |t.verifiers|
    ensures
      var after := Finalize(t);
      var ballots, total := Ballots(t.result.value.hash, Hashes(t.rows)), |t.verifiers| + 1;
      && (forall h :: after.status == Accepted && after.commitment == Some(h) <==> TwoThirds(ballots, total, h))
      && (after.status == Accepted ==> after.commitment.Some?)
      && (after.status == Rejected <==> |t.rows| == |t.verifiers| && forall h :: !TwoThirds(ballots, total, h))
      && (if after.status != Queued
          then && after.confirms + after.rejects == total
               && (forall h :: h != "" ==> Votes(ballots, h) <= after.confirms)
               && (exists h :: h != "" && Votes(ballots, h) == after.confirms)
          else after == t)
      && (after.status != Accepted ==> after.commitment == t.commitment && after.confidence == t.confidence)
      && after == t.(status := after.status, commitment := after.commitment, confidence := after.confidence,
                     confirms := after.confirms, rejects := after.rejects)
  {
    var leaderHash, hashes, n := t.result.value.hash, Hashes(t.rows), |t.verifiers|;
    var d := Decide(n, leaderHash, hashes);
    DecideMeetsRule(n, leaderHash, hashes);
    FinalizedByDecision(t, d);
    var ballots, total := Ballots(leaderHash, hashes), n + 1;
    forall h ensures d.Accept? && d.hash == h <==> TwoThirds(ballots, total, h) {
      AcceptedExactly(n, leaderHash, hashes, h);
    }
  }

  lemma FinalizedByDecision(t: TextRequest, d: Decision)
    requires Decidable(t) && d == Decide(|t.verifiers|, t.result.value.hash, Hashes(t.rows))
    ensures
      var after := Finalize(t);
      && (after.status == Accepted <==> d.Accept?) && (after.status == Rejected <==> d.Reject?)
      && (after.status == Queued <==> d.Undecided?)
      && (d.Accept? ==> after.commitment == Some(d.hash))
      && (!d.Undecided? ==> after.confirms == d.confirms && after.rejects == d.rejects)
      && (!d.Accept? ==> after.commitment == t.commitment && after.confidence == t.confidence)
      && (d.Undecided? ==> after == t)
      && after == t.(status := after.status, commitment := after.commitment, confidence := after.confidence,
                     confirms := after.confirms, rejects := after.rejects)
  {
  }

  // --- Claims, polls and the prompt key ---------------------------------------------

  /** A claim overwrites whatever the entry said before, for any caller. */
  function Claim(t: TextRequest, node: Address, now: real): TextRequest {
    t.(nodes := t.nodes[node := Entry(Claimed, Some(now))])
  }

  predicate Overdue(t: TextRequest, node: Address, now: real) {
    && node in t.nodes
    && t.nodes[node].status == Claimed
    && t.nodes[node].claimedAt.Some?
    && now - t.nodes[node].claimedAt.value > CLAIM_TIMEOUT
  }

  predicate AllTimedOut(nodes: map<Address, Entry>) {
    forall a :: a in nodes ==> nodes[a].status == TimedOut
  }

  /** The first write of a poll that found an overdue claim. */
  function MarkEntry(t: TextRequest, node: Address): TextRequest {
    t.(nodes := WithEntryStatus(t.nodes, node, TimedOut))
  }

  /** Its second one, if it finds every entry failed. */
  function FailIfAll(t: TextRequest): TextRequest {
    if AllTimedOut(t.nodes) && Open(t.status) then t.(status := Failed) else t
  }

  function MarkFailed(t: TextRequest, node: Address): TextRequest {
    FailIfAll(MarkEntry(t, node))
  }

  predicate AssignedTo(t: TextRequest, node: Address) {
    t.leader == node || node in t.verifiers
  }

  /** What one poll by `node` does to this request. */
  function Poll(t: TextRequest, node: Address, now: real): TextRequest {
    if Open(t.status) && AssignedTo(t, node) && Overdue(t, node, now) then MarkFailed(t, node) else t
  }

  /**
   * A poll changes a request only if it is unfinished, assigned to the node and claimed by it
   * more than 300 seconds ago. Then it fails the claim and keeps its time, and fails the
   * request exactly if every other entry had failed before.
   */
  lemma PolledExactly(t: TextRequest, node: Address, now: real)
    ensures
      var late := && (t.status == Queued || t.status == Dispatched || t.status == Running)
                  && (node == t.leader || node in t.verifiers)
                  && node in t.nodes && t.nodes[node].status == Claimed
                  && t.nodes[node].claimedAt.Some? && now - t.nodes[node].claimedAt.value > 300.0;
      var after := Poll(t, node, now);
      if !late then after == t
      else
        && after == t.(nodes := after.nodes, status := after.status)
        && after.nodes.Keys == t.nodes.Keys
        && after.nodes[node] == Entry(TimedOut, t.nodes[node].claimedAt)
        && (forall a :: a in t.nodes && a != node ==> after.nodes[a] == t.nodes[a])
        && (if forall a :: a in t.nodes && a != node ==> t.nodes[a].status == TimedOut
            then after.status == Failed
            else after.status == t.status)
  {
    var marked := MarkEntry(t, node);
    if forall a :: a in t.nodes && a != node ==> t.nodes[a].status == TimedOut {
      assert node in t.nodes ==> AllTimedOut(marked.nodes);
    } else {
      var a :| a in t.nodes && a != node && t.nodes[a].status != TimedOut;
      assert marked.nodes[a] == t.nodes[a];
    }
  }

  /** What a key confirmation writes: the metadata that it read, the leader's result in it, and the status. */
  function ConfirmOver(t: TextRequest, kept: Option<LeaderResult>): TextRequest {
    t.(result := kept, status := Queued)
  }

  /** The closing write of a creation: its own metadata, and whether the key is awaited. */
  function OpenOver(t: TextRequest, keyPending: bool): TextRequest {
    t.(result := None, status := if keyPending then PendingStoreKey else Queued)
  }

  function ConfirmStoreKey(t: TextRequest): TextRequest {
    if t.status == PendingStoreKey then ConfirmOver(t, t.result) else t
  }

  // --- Well-formed documents ---------------------------------------------------------

  /** Distinct quorum members, at most one row per verifier, and an entry for every member. */
  ghost predicate WellFormed(t: TextRequest) {
    && Distinct(Quorum(t))
    && Distinct(Voters(t.rows))
    && (forall r :: r in t.rows ==> r.verifier in t.verifiers)
    && (forall a :: a in Quorum(t) ==> a in t.nodes)
  }

  lemma CreateIsWellFormed(taskId: string, leader: Address, verifiers: seq<Address>, keyPending: bool)
    requires Distinct([leader] + verifiers)
    ensures WellFormed(Create(taskId, leader, verifiers, keyPending))
    ensures
      var t := Create(taskId, leader, verifiers, keyPending);
      && t.taskId == taskId && t.leader == leader && t.verifiers == verifiers
      && (t.status == PendingStoreKey <==> keyPending) && (t.status == Queued <==> !keyPending)
      && t.result.None? && t.commitment.None? && t.rows == []
      && (forall a :: a in t.nodes <==> a == leader || a in verifiers)
      && (forall a :: a in t.nodes ==> t.nodes[a] == Entry(Pending, None))
  {
  }

  /** The upsert is what keeps one row per verifier. */
  lemma UpsertKeepsOneRow(rows: seq<VerdictRow>, row: VerdictRow)
    requires Distinct(Voters(rows))
    ensures Distinct(Voters(Upsert(rows, row)))
    ensures forall r :: r in Upsert(rows, row) <==> r == row || (r in rows && r.verifier != row.verifier)
    ensures row.verifier !in Voters(rows) ==> Upsert(rows, row) == rows + [row]
  {
    var i := RowOf(rows, row.verifier);
    var after := Upsert(rows, row);
    if i < |rows| {
      assert Voters(rows)[i] == row.verifier;
      assert Voters(after) == Voters(rows);
      forall r | r in rows && r.verifier != row.verifier ensures r in after {
        var k :| 0 <= k < |rows| && rows[k] == r;
        assert after[k] == r;
      }
      assert after[i] == row;
      forall r | r in after ensures r == row || (r in rows && r.verifier != row.verifier) {
        var k :| 0 <= k < |after| && after[k] == r;
        if k != i {
          assert Voters(rows)[k] != Voters(rows)[i];
        }
      }
    } else {
      forall k | 0 <= k < |rows| ensures Voters(rows)[k] != row.verifier {
        assert rows[k].verifier != row.verifier;
      }
      assert Voters(after) == Voters(rows) + [row.verifier];
    }
  }

  /** A full table: one row from every verifier. */
  lemma RowsAreBounded(t: TextRequest)
    requires WellFormed(t)
    ensures |t.rows| <= |t.verifiers|
    ensures |t.rows| == |t.verifiers| <==> forall v :: v in t.verifiers ==> v in Voters(t.rows)
  {
    var voters := Voters(t.rows);
    var bound := set v | v in t.verifiers;
    forall v | v in voters ensures v in bound {
      var i :| 0 <= i < |voters| && voters[i] == v;
      assert t.rows[i] in t.rows;
    }
    assert Distinct(t.verifiers) by {
      assert forall i :: 0 <= i < |t.verifiers| ==> t.verifiers[i] == Quorum(t)[i + 1];
    }
    DistinctCard(t.verifiers);
    DistinctWithin(voters, bound);
    if forall v :: v in t.verifiers ==> v in voters {
      DistinctWithin(t.verifiers, set v | v in voters);
      DistinctCard(voters);
    }
  }
}
