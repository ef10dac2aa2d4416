/** Risk mode end to end: stored verdicts, the finalizer that waits for all of them, and the commit it makes. */
module RiskRequests {
  import opened Prelude
  import opened VerdictAggregator
  import opened TextRequests

  datatype RiskStatus = RiskQueued | RiskAccepted | RiskRejected | RiskFailed

  datatype LeaderSubmission = LeaderSubmission(hash: string, confidence: nat)

  /** A stored verdict; without an explicit answer it confirms exactly if its hash is the leader's. */
  datatype RiskRow = RiskRow(verifier: string, accepted: Option<bool>, hash: Option<string>, confidence: Option<nat>)

  /** What a commit writes into the request, and before that into its certificate. */
  datatype RiskDecision = RiskDecision(accepted: bool, hash: string, confirms: nat, rejects: nat, confidence: int)

  datatype RiskRequest = RiskRequest(
    leader: string,
    verifiers: seq<string>,
    status: RiskStatus,
    submission: Option<LeaderSubmission>,
    rows: seq<RiskRow>,
    decision: Option<RiskDecision>,
    certificate: Option<RiskDecision>,
    nodes: map<string, Entry>)

  function Opinion(row: RiskRow, s: LeaderSubmission): bool {
    if row.accepted.Some? then row.accepted.value else row.hash == Some(s.hash)
  }

  function LastRow(rows: seq<RiskRow>, key: string): Option<RiskRow> {
    if rows == [] then None
    else
      var last := rows[|rows| - 1];
      if Lower(last.verifier) == key then Some(last) else LastRow(rows[..|rows| - 1], key)
  }

  predicate AllIn(t: RiskRequest) {
    |t.rows| >= |t.verifiers| && forall v :: v in t.verifiers ==> LastRow(t.rows, Lower(v)).Some?
  }

  function VerdictFrom(verifier: string, row: RiskRow, s: LeaderSubmission): Verdict {
    Verdict(verifier, Opinion(row, s), if row.confidence.Some? then row.confidence.value else s.confidence)
  }

  function Provided(t: RiskRequest, s: LeaderSubmission): seq<Verdict>
    requires AllIn(t)
  {
    seq(|t.verifiers|, i requires 0 <= i < |t.verifiers| => VerdictFrom(t.verifiers[i], LastRow(t.rows, Lower(t.verifiers[i])).value, s))
  }

  // --- Committing --------------------------------------------------------------------

  function Weighed(verifiers: seq<string>, hash: string, leaderConfidence: nat, provided: seq<Verdict>): RiskDecision {
    ConfirmsAreConfirming(verifiers, provided);
    var confirms := |Confirming(verifiers, provided)|;
    RiskDecision(
      2 * confirms >= |verifiers|, hash, confirms, |verifiers| - confirms,
      RoundHalfEven(leaderConfidence + ConfidenceSum(VerdictsOf(verifiers, provided)), |verifiers| + 1))
  }

  function StatusOf(d: RiskDecision): RiskStatus {
    if d.accepted then RiskAccepted else RiskRejected
  }

  function RowIndex(rows: seq<RiskRow>, verifier: string): (i: nat)
    ensures i <= |rows|
    ensures i < |rows| ==> rows[i].verifier == verifier
    ensures forall k :: 0 <= k < i ==> rows[k].verifier != verifier
  {
    if rows == [] || rows[0].verifier == verifier then 0 else 1 + RowIndex(rows[1..], verifier)
  }

  function Stored(rows: seq<RiskRow>, row: RiskRow): seq<RiskRow> {
    var i := RowIndex(rows, row.verifier);
    if i < |rows| then rows[i := row] else rows + [row]
  }

  /** The row that a commit writes for a verdict it counted: the answer is explicit and the hash is gone. */
  function Settled(v: Verdict): RiskRow {
    RiskRow(v.address, Some(v.accepted), None, Some(v.confidence))
  }

  function Rewritten(rows: seq<RiskRow>, verdicts: seq<Verdict>): seq<RiskRow> {
    if verdicts == [] then rows
    else Stored(Rewritten(rows, verdicts[..|verdicts| - 1]), Settled(verdicts[|verdicts| - 1]))
  }

  /** Without a verifier a commit fails when it picks the cross verifier. */
  predicate Committable(t: RiskRequest) {
    t.status == RiskQueued && t.verifiers != []
  }

  /** All writes of a commit: the counted verdicts, the certificate and the decision. */
  function Committed(t: RiskRequest, hash: string, leaderConfidence: nat, provided: seq<Verdict>): RiskRequest {
    var d := Weighed(t.verifiers, hash, leaderConfidence, provided);
    t.(status := StatusOf(d), decision := Some(d), certificate := Some(d),
       rows := Rewritten(t.rows, VerdictsOf(t.verifiers, provided)))
  }

  predicate Ready(t: RiskRequest) {
    Committable(t) && t.submission.Some? && AllIn(t)
  }

  function FinalizeRisk(t: RiskRequest): RiskRequest {
    if Ready(t) then
      var s := t.submission.value;
      Committed(t, s.hash, s.confidence, Provided(t, s))
    else t
  }

  // --- What the decision means -------------------------------------------------------

  predicate DistinctVerifiers(verifiers: seq<string>) {
    forall i, j :: 0 <= i < j < |verifiers| ==> Lower(verifiers[i]) != Lower(verifiers[j])
  }

  /** The verifiers, by position, whose stored opinion confirms the leader. */
  function Supporting(t: RiskRequest, s: LeaderSubmission): set<nat>
    requires AllIn(t)
  {
    set i | 0 <= i < |t.verifiers| && Opinion(LastRow(t.rows, Lower(t.verifiers[i])).value, s)
  }

  lemma {:induction false} LastForOwn(provided: seq<Verdict>, i: nat)
    requires i < |provided| && forall a, b :: 0 <= a < b < |provided| ==> Lower(provided[a].address) != Lower(provided[b].address)
    ensures LastFor(provided, Lower(provided[i].address)) == Some(provided[i])
  {
    var n := |provided| - 1;
    if i < n {
      LastForOwn(provided[..n], i);
    }
  }

  /** Verdicts listed verifier by verifier are the ones that the aggregator counts. */
  lemma ListedAreCounted(verifiers: seq<string>, provided: seq<Verdict>)
    requires DistinctVerifiers(verifiers) && |provided| == |verifiers|
    requires forall i :: 0 <= i < |provided| ==> provided[i].address == verifiers[i]
    ensures VerdictsOf(verifiers, provided) == provided
    ensures Confirming(verifiers, provided) == set i | 0 <= i < |verifiers| && provided[i].accepted
  {
    forall i | 0 <= i < |provided| ensures LastFor(provided, Lower(verifiers[i])) == Some(provided[i]) {
      LastForOwn(provided, i);
    }
  }

  /**
   * The risk finalizer decides only when every verifier has a row, and then accepts exactly
   * if at least half of the verifiers hold the leader's opinion: the aggregator's default
   * for missing verdicts is never used on this path. The certificate says the same.
   */
  lemma RiskDecisionIsMajority(t: RiskRequest)
    requires t.status == RiskQueued && DistinctVerifiers(t.verifiers)
    ensures FinalizeRisk(t).status != RiskQueued <==> t.verifiers != [] && t.submission.Some? && AllIn(t)
    ensures Ready(t) ==>
              var s, d := t.submission.value, FinalizeRisk(t).decision;
              && d.Some? && FinalizeRisk(t).certificate == d && d.value.hash == s.hash
              && (FinalizeRisk(t).status == RiskAccepted <==> 2 * |Supporting(t, s)| >= |t.verifiers|)
              && d.value.confirms == |Supporting(t, s)| && d.value.confirms + d.value.rejects == |t.verifiers|
              && d.value.confidence == RoundHalfEven(s.confidence + ConfidenceSum(Provided(t, s)), |t.verifiers| + 1)
  {
    if Ready(t) {
      var provided := Provided(t, t.submission.value);
      ListedAreCounted(t.verifiers, provided);
      assert Supporting(t, t.submission.value) == set i | 0 <= i < |t.verifiers| && provided[i].accepted;
    }
  }

  predicate OneRowEach(rows: seq<RiskRow>) {
    forall i, j :: 0 <= i < j < |rows| ==> Lower(rows[i].verifier) != Lower(rows[j].verifier)
  }

  /** With one row per verifier, the last row of a verifier is its only one. */
  lemma {:induction false} LastRowIsOnlyRow(rows: seq<RiskRow>, key: string)
    requires OneRowEach(rows)
    ensures forall row :: LastRow(rows, key) == Some(row) <==> row in rows && Lower(row.verifier) == key
  {
    if rows != [] {
      var n := |rows| - 1;
      assert rows == rows[..n] + [rows[n]];
      LastRowIsOnlyRow(rows[..n], key);
    }
  }

  lemma SameOnlyRow(one: seq<RiskRow>, other: seq<RiskRow>, key: string)
    requires OneRowEach(one) && OneRowEach(other) && forall row :: row in one <==> row in other
    ensures LastRow(one, key) == LastRow(other, key)
  {
    LastRowIsOnlyRow(one, key);
    LastRowIsOnlyRow(other, key);
    var a, b := LastRow(one, key), LastRow(other, key);
    assert a.Some? ==> LastRow(other, key) == Some(a.value);
    assert b.Some? ==> LastRow(one, key) == Some(b.value);
  }

  /** The order in which verdicts were stored has no influence on anything but the rows themselves. */
  lemma RiskRowOrderIsIrrelevant(t: RiskRequest, other: seq<RiskRow>)
    requires OneRowEach(t.rows) && OneRowEach(other) && |other| == |t.rows|
    requires forall row :: row in t.rows <==> row in other
    ensures
      var one, two := FinalizeRisk(t), FinalizeRisk(t.(rows := other));
      two == one.(rows := two.rows)
  {
    var t' := t.(rows := other);
    forall v | v in t.verifiers ensures LastRow(other, Lower(v)) == LastRow(t.rows, Lower(v)) {
      SameOnlyRow(t.rows, other, Lower(v));
    }
    if Ready(t) {
      assert Provided(t', t.submission.value) == Provided(t, t.submission.value);
    }
  }

  // --- Storing verdicts --------------------------------------------------------------

  /** Rows belong to assigned verifiers, one row each. */
  ghost predicate WellKept(t: RiskRequest) {
    DistinctVerifiers(t.verifiers) && OneRowEach(t.rows) && forall row :: row in t.rows ==> row.verifier in t.verifiers
  }

  /** A request is complete exactly if every verifier has a row. */
  lemma AllInExactly(t: RiskRequest)
    requires WellKept(t)
    ensures AllIn(t) <==> forall v :: v in t.verifiers ==> exists row :: row in t.rows && row.verifier == v
  {
    var voters := seq(|t.rows|, i requires 0 <= i < |t.rows| => t.rows[i].verifier);
    forall v | v in t.verifiers ensures LastRow(t.rows, Lower(v)).Some? <==> exists row :: row in t.rows && row.verifier == v {
      RowOfVerifier(t, v);
    }
    if forall v :: v in t.verifiers ==> exists row :: row in t.rows && row.verifier == v {
      forall v | v in t.verifiers ensures v in voters {
        var row :| row in t.rows && row.verifier == v;
        var i :| 0 <= i < |t.rows| && t.rows[i] == row;
        assert voters[i] == v;
      }
      DistinctWithin(t.verifiers, set x | x in voters);
      DistinctCard(voters);
    }
  }

  lemma RowOfVerifier(t: RiskRequest, v: string)
    requires WellKept(t) && v in t.verifiers
    ensures LastRow(t.rows, Lower(v)).Some? <==> exists row :: row in t.rows && row.verifier == v
  {
    LastRowIsOnlyRow(t.rows, Lower(v));
    var last := LastRow(t.rows, Lower(v));
    if last.Some? {
      SameLowerSameVerifier(t.verifiers, last.value.verifier, v);
    }
    if row :| row in t.rows && row.verifier == v {
      assert LastRow(t.rows, Lower(v)) == Some(row);
    }
  }

  lemma SameLowerSameVerifier(verifiers: seq<string>, a: string, b: string)
    requires DistinctVerifiers(verifiers) && a in verifiers && b in verifiers && Lower(a) == Lower(b)
    ensures a == b
  {
    var i :| 0 <= i < |verifiers| && verifiers[i] == a;
    var j :| 0 <= j < |verifiers| && verifiers[j] == b;
    assert i == j;
  }

  /** The upsert and the membership check keep one row per assigned verifier. */
  lemma StoringKeepsRows(t: RiskRequest, row: RiskRow)
    requires WellKept(t) && row.verifier in t.verifiers
    ensures WellKept(t.(rows := Stored(t.rows, row)))
  {
    var k := RowIndex(t.rows, row.verifier);
    var after := Stored(t.rows, row);
    forall i, j | 0 <= i < j < |after| ensures Lower(after[i].verifier) != Lower(after[j].verifier) {
      if k == |t.rows| && j == k && Lower(after[i].verifier) == Lower(row.verifier) {
        assert t.rows[i] in t.rows;
        SameLowerSameVerifier(t.verifiers, after[i].verifier, row.verifier);
      }
    }
  }

  /** A stored row is the one that counts for its verifier; the others keep theirs. */
  lemma LastRowAfterStore(t: RiskRequest, row: RiskRow, v: string)
    requires WellKept(t) && row.verifier in t.verifiers && v in t.verifiers
    ensures LastRow(Stored(t.rows, row), Lower(v)) == if v == row.verifier then Some(row) else LastRow(t.rows, Lower(v))
  {
    var after := Stored(t.rows, row);
    StoringKeepsRows(t, row);
    LastRowIsOnlyRow(t.rows, Lower(v));
    LastRowIsOnlyRow(after, Lower(v));
    var k := RowIndex(t.rows, row.verifier);
    assert after[k] == row;
    if v != row.verifier {
      if Lower(v) == Lower(row.verifier) {
        SameLowerSameVerifier(t.verifiers, v, row.verifier);
      }
      var before := LastRow(t.rows, Lower(v));
      if before.Some? {
        var i :| 0 <= i < |t.rows| && t.rows[i] == before.value;
        assert after[i] == before.value;
      }
    }
  }

  predicate Listed(verifiers: seq<string>, verdicts: seq<Verdict>) {
    |verdicts| <= |verifiers| && forall k :: 0 <= k < |verdicts| ==> verdicts[k].address == verifiers[k]
  }

  lemma {:induction false} RewritingKeepsRows(t: RiskRequest, verdicts: seq<Verdict>)
    requires WellKept(t) && Listed(t.verifiers, verdicts)
    ensures WellKept(t.(rows := Rewritten(t.rows, verdicts))) && |t.rows| <= |Rewritten(t.rows, verdicts)|
  {
    if verdicts != [] {
      var n := |verdicts| - 1;
      RewritingKeepsRows(t, verdicts[..n]);
      assert Settled(verdicts[n]).verifier == t.verifiers[n];
      StoringKeepsRows(t.(rows := Rewritten(t.rows, verdicts[..n])), Settled(verdicts[n]));
    }
  }

  lemma PositionsDiffer(verifiers: seq<string>, i: nat, j: nat)
    requires DistinctVerifiers(verifiers) && i < |verifiers| && j < |verifiers|
    ensures verifiers[i] == verifiers[j] <==> i == j
  {
  }

  /** Rewriting the rows into the verdicts that were counted gives each verifier its counted verdict. */
  lemma {:induction false} RewritingStoresCounted(t: RiskRequest, verdicts: seq<Verdict>, i: nat)
    requires WellKept(t) && i < |t.verifiers| && Listed(t.verifiers, verdicts)
    ensures LastRow(Rewritten(t.rows, verdicts), Lower(t.verifiers[i])) ==
            if i < |verdicts| then Some(Settled(verdicts[i])) else LastRow(t.rows, Lower(t.verifiers[i]))
  {
    if verdicts != [] {
      var n := |verdicts| - 1;
      var before := verdicts[..n];
      RewritingStoresCounted(t, before, i);
      RewritingKeepsRows(t, before);
      assert Settled(verdicts[n]).verifier == t.verifiers[n];
      LastRowAfterStore(t.(rows := Rewritten(t.rows, before)), Settled(verdicts[n]), t.verifiers[i]);
      PositionsDiffer(t.verifiers, i, n);
    }
  }

  lemma FinalizingKeepsRows(t: RiskRequest)
    requires WellKept(t)
    ensures WellKept(FinalizeRisk(t)) && |t.rows| <= |FinalizeRisk(t).rows|
  {
    if Ready(t) {
      var provided := Provided(t, t.submission.value);
      ListedAreCounted(t.verifiers, provided);
      RewritingKeepsRows(t, provided);
    }
  }

  lemma StoringAgain(rows: seq<RiskRow>, row: RiskRow)
    requires OneRowEach(rows) && LastRow(rows, Lower(row.verifier)) == Some(row)
    ensures Stored(rows, row) == rows
  {
    LastRowIsOnlyRow(rows, Lower(row.verifier));
    var i := RowIndex(rows, row.verifier);
    var j :| 0 <= j < |rows| && rows[j] == row;
    assert i == j;
  }

  /** Rows that already hold the counted verdicts are left as they are. */
  lemma {:induction false} RewritingAgain(rows: seq<RiskRow>, verdicts: seq<Verdict>)
    requires OneRowEach(rows)
    requires forall k :: 0 <= k < |verdicts| ==> LastRow(rows, Lower(verdicts[k].address)) == Some(Settled(verdicts[k]))
    ensures Rewritten(rows, verdicts) == rows
  {
    if verdicts != [] {
      var n := |verdicts| - 1;
      RewritingAgain(rows, verdicts[..n]);
      StoringAgain(rows, Settled(verdicts[n]));
    }
  }

  lemma CommitStoresCounted(t: RiskRequest, i: nat)
    requires WellKept(t) && Ready(t) && i < |t.verifiers|
    ensures LastRow(FinalizeRisk(t).rows, Lower(t.verifiers[i])) == Some(Settled(Provided(t, t.submission.value)[i]))
  {
    var provided := Provided(t, t.submission.value);
    ListedAreCounted(t.verifiers, provided);
    RewritingStoresCounted(t, provided, i);
  }

  /** A finalizer that reads the rows a commit left behind counts the same verdicts again. */
  lemma CommitKeepsVerdicts(t: RiskRequest)
    requires WellKept(t) && Ready(t)
    ensures AllIn(FinalizeRisk(t)) && Provided(FinalizeRisk(t), t.submission.value) == Provided(t, t.submission.value)
  {
    FinalizingKeepsRows(t);
    forall i | 0 <= i < |t.verifiers|
      ensures LastRow(FinalizeRisk(t).rows, Lower(t.verifiers[i])) == Some(Settled(Provided(t, t.submission.value)[i]))
    {
      CommitStoresCounted(t, i);
    }
  }

  lemma RewritingCommitted(t: RiskRequest)
    requires WellKept(t) && Ready(t)
    ensures Rewritten(FinalizeRisk(t).rows, Provided(t, t.submission.value)) == FinalizeRisk(t).rows
  {
    var after, provided := FinalizeRisk(t), Provided(t, t.submission.value);
    FinalizingKeepsRows(t);
    forall k | 0 <= k < |provided| ensures LastRow(after.rows, Lower(provided[k].address)) == Some(Settled(provided[k])) {
      CommitStoresCounted(t, k);
    }
    RewritingAgain(after.rows, provided);
  }

  /** Committing once more writes nothing new, not even a row. */
  lemma CommitIsIdempotent(t: RiskRequest)
    requires WellKept(t) && Ready(t)
    ensures FinalizeRisk(FinalizeRisk(t).(status := RiskQueued)) == FinalizeRisk(t)
  {
    var again := FinalizeRisk(t).(status := RiskQueued);
    CommitKeepsVerdicts(t);
    RewritingCommitted(t);
    ListedAreCounted(t.verifiers, Provided(t, t.submission.value));
    assert Ready(again) && Provided(again, t.submission.value) == Provided(t, t.submission.value);
  }

  // --- Whole rounds of submissions ---------------------------------------------------

  function Posted(t: RiskRequest, row: RiskRow): RiskRequest {
    t.(rows := Stored(t.rows, row), nodes := WithEntryStatus(t.nodes, row.verifier, Completed))
  }

  /** Each row is stored and followed by a finalizer, one after the other. */
  function SubmitAll(t: RiskRequest, rows: seq<RiskRow>): RiskRequest {
    if rows == [] then t
    else FinalizeRisk(Posted(SubmitAll(t, rows[..|rows| - 1]), rows[|rows| - 1]))
  }

  lemma StoredAppends(rows: seq<RiskRow>, row: RiskRow)
    requires OneRowEach(rows + [row])
    ensures Stored(rows, row) == rows + [row]
  {
    forall k | 0 <= k < |rows| ensures rows[k].verifier != row.verifier {
      assert (rows + [row])[k] == rows[k] && (rows + [row])[|rows|] == row;
    }
  }

  function CompletedBy(nodes: map<string, Entry>, verifiers: set<string>): map<string, Entry> {
    map a | a in nodes.Keys + verifiers ::
      if a in verifiers then Entry(Completed, if a in nodes then nodes[a].claimedAt else None) else nodes[a]
  }

  lemma CompletedByOneMore(nodes: map<string, Entry>, verifiers: set<string>, v: string)
    ensures WithEntryStatus(CompletedBy(nodes, verifiers), v, Completed) == CompletedBy(nodes, verifiers + {v})
  {
  }

  function WithRows(t: RiskRequest, rows: seq<RiskRow>): RiskRequest {
    t.(rows := rows, nodes := CompletedBy(t.nodes, set row | row in rows :: row.verifier))
  }

  lemma WithOneMore(t: RiskRequest, before: seq<RiskRow>, row: RiskRow)
    requires t.rows == [] && OneRowEach(before + [row])
    ensures Posted(WithRows(t, before), row) == WithRows(t, before + [row])
  {
    StoredAppends(before, row);
    var verifiers := set r | r in before :: r.verifier;
    CompletedByOneMore(t.nodes, verifiers, row.verifier);
    assert (set r | r in before + [row] :: r.verifier) == verifiers + {row.verifier};
  }

  /** No finalizer decides before the last verdict is in. */
  lemma {:induction false} RoundWaitsForAll(t: RiskRequest, rows: seq<RiskRow>)
    requires t.status == RiskQueued && t.rows == []
    requires OneRowEach(rows) && |rows| <= |t.verifiers|
    ensures SubmitAll(t, rows) == if |rows| < |t.verifiers| || rows == [] then WithRows(t, rows) else FinalizeRisk(WithRows(t, rows))
  {
    if rows == [] {
      assert WithRows(t, rows) == t;
    } else {
      var n := |rows| - 1;
      var before, last := rows[..n], rows[n];
      assert rows == before + [last];
      RoundWaitsForAll(t, before);
      WithOneMore(t, before, last);
    }
  }

  lemma SameRowsSameVerifiers(t: RiskRequest, one: seq<RiskRow>, other: seq<RiskRow>)
    requires forall row :: row in one <==> row in other
    ensures WithRows(t, other) == WithRows(t, one).(rows := other)
  {
    assert (set row | row in other :: row.verifier) == (set row | row in one :: row.verifier);
  }

  /** Two rounds with the same verdicts in different orders end alike, up to the order of the rows. */
  lemma RoundOrderIsIrrelevant(t: RiskRequest, one: seq<RiskRow>, other: seq<RiskRow>)
    requires t.status == RiskQueued && t.rows == []
    requires OneRowEach(one) && OneRowEach(other) && |one| == |other| <= |t.verifiers|
    requires forall row :: row in one <==> row in other
    ensures SubmitAll(t, other) == SubmitAll(t, one).(rows := SubmitAll(t, other).rows)
  {
    RoundWaitsForAll(t, one);
    RoundWaitsForAll(t, other);
    SameRowsSameVerifiers(t, one, other);
    var a, b := WithRows(t, one), WithRows(t, other);
    assert a.rows == one && b == a.(rows := other);
    RiskRowOrderIsIrrelevant(a, other);
  }

  // --- The service -------------------------------------------------------------------

  /** A missing or empty hash is replaced by the digest of the score. */
  function LeaderHash(hash: Option<string>, digest: string): string {
    if hash.Some? && hash.value != "" then hash.value else digest
  }

  /** A verifier that posts the leader's hash and no answer of its own supports the leader. */
  lemma SameHashSupports(t: RiskRequest, s: LeaderSubmission)
    requires AllIn(t) && forall v :: v in t.verifiers ==>
               LastRow(t.rows, Lower(v)).value.accepted.None? && LastRow(t.rows, Lower(v)).value.hash == Some(s.hash)
    ensures |Supporting(t, s)| == |t.verifiers|
  {
    var all := seq(|t.verifiers|, i requires 0 <= i < |t.verifiers| => i);
    assert forall i :: 0 <= i < |t.verifiers| ==> t.verifiers[i] in t.verifiers;
    assert Distinct(all) && forall i :: 0 <= i < |all| ==> all[i] == i;
    DistinctCard(all);
    forall i: nat ensures i in all <==> i in Supporting(t, s) {
      assert i < |t.verifiers| ==> all[i] == i && t.verifiers[i] in t.verifiers;
    }
    assert (set i | i in all) == Supporting(t, s);
  }

  /** So a hash that the leader and every verifier posted is accepted. */
  lemma SameHashIsAccepted(t: RiskRequest, s: LeaderSubmission)
    requires Committable(t) && t.submission == Some(s) && AllIn(t) && DistinctVerifiers(t.verifiers)
    requires forall v :: v in t.verifiers ==>
               LastRow(t.rows, Lower(v)).value.accepted.None? && LastRow(t.rows, Lower(v)).value.hash == Some(s.hash)
    ensures FinalizeRisk(t).status == RiskAccepted && FinalizeRisk(t).decision.value.hash == s.hash
  {
    SameHashSupports(t, s);
    RiskDecisionIsMajority(t);
  }

  /** An answer counts as it is given; without one it is the hash that counts, and an absent hash is never the leader's. */
  lemma OpinionExactly(row: RiskRow, s: LeaderSubmission)
    ensures row.accepted == Some(true) ==> Opinion(row, s)
    ensures row.accepted == Some(false) ==> !Opinion(row, s)
    ensures row.accepted.None? && row.hash.Some? ==> (Opinion(row, s) <==> row.hash.value == s.hash)
    ensures row.accepted.None? && row.hash.None? ==> !Opinion(row, s)
  {
  }

  datatype RiskNotice = RiskNotice(accepted: bool, hash: string)

  function NoticeOf(t: RiskRequest): seq<RiskNotice> {
    if t.decision.Some? then [RiskNotice(t.decision.value.accepted, t.decision.value.hash)] else []
  }

  /** One notice goes out exactly if the request was decided, and says which way and with which hash. */
  ghost predicate Tells(before: RiskRequest, now: RiskRequest, outbox: seq<RiskNotice>, outbox': seq<RiskNotice>) {
    if before.status != now.status
    then && now.decision.Some?
         && (now.status == RiskAccepted ==> outbox' == outbox + [RiskNotice(true, now.decision.value.hash)])
         && (now.status == RiskRejected ==> outbox' == outbox + [RiskNotice(false, now.decision.value.hash)])
         && (now.status == RiskAccepted || now.status == RiskRejected)
    else outbox' == outbox
  }

  class RiskQuorumService {
    var request: RiskRequest
    var outbox: seq<RiskNotice>

    constructor (leader: string, verifiers: seq<string>)
      ensures request == RiskRequest(leader, verifiers, RiskQueued, None, [], None, None, map[]) && outbox == []
    {
      request := RiskRequest(leader, verifiers, RiskQueued, None, [], None, None, map[]);
      outbox := [];
    }

    method RewriteVerdicts(verdicts: seq<Verdict>)
      modifies this`request
      ensures request == old(request).(rows := Rewritten(old(request).rows, verdicts))
    {
      var t, rows := request, request.rows;
      for i := 0 to |verdicts|
        invariant rows == Rewritten(t.rows, verdicts[..i]) && request == t.(rows := rows)
      {
        assert verdicts[..i + 1][..i] == verdicts[..i];
        rows := Stored(rows, Settled(verdicts[i]));
        request := t.(rows := rows);
      }
      assert verdicts[..|verdicts|] == verdicts;
    }

    /** Aggregates, rewrites the counted verdicts, writes the certificate and then the decision. */
    method CommitRequest(hash: Option<string>, digest: string, leaderConfidence: nat, provided: seq<Verdict>) returns (committed: bool)
      modifies this`request
      ensures committed <==> Committable(old(request))
      ensures request == if committed then Committed(old(request), LeaderHash(hash, digest), leaderConfidence, provided) else old(request)
      ensures committed ==>
                && request.decision.Some?
                && (hash.Some? && hash.value != "" ==> request.decision.value.hash == hash.value)
                && (hash.None? || hash.value == "" ==> request.decision.value.hash == digest)
                && (request.status == RiskAccepted <==> 2 * |Confirming(request.verifiers, provided)| >= |request.verifiers|)
                && (request.status == RiskAccepted || request.status == RiskRejected)
    {
      if request.status != RiskQueued || request.verifiers == [] {
        return false;
      }
      var t, resultHash := request, LeaderHash(hash, digest);
      var a := Aggregate(leaderConfidence, t.verifiers, provided);
      RewriteVerdicts(a.verdicts);
      var d := RiskDecision(a.accepted, resultHash, a.confirms, a.rejects, a.confidence);
      request := request.(certificate := Some(d));
      request := request.(status := StatusOf(d), decision := Some(d));
      return true;
    }

    /** Reads once, decides once, and tells the payment service if it did. */
    method AttemptFinalizeRequest() returns (decided: bool)
      modifies this
      ensures decided <==> Ready(old(request))
      ensures request == FinalizeRisk(old(request))
      ensures outbox == old(outbox) + if decided then NoticeOf(request) else []
      ensures Tells(old(request), request, old(outbox), outbox)
    {
      if request.status != RiskQueued || request.submission.None? || |request.rows| < |request.verifiers| {
        return false;
      }
      var t := request;
      var s := t.submission.value;
      var byAddress := IndexRows(t.rows);
      var verdicts := [];
      for i := 0 to |t.verifiers|
        invariant request == t && outbox == old(outbox) && |verdicts| == i
        invariant forall k :: 0 <= k < i ==> LastRow(t.rows, Lower(t.verifiers[k])).Some?
        invariant forall k :: 0 <= k < i ==>
                    verdicts[k] == VerdictFrom(t.verifiers[k], LastRow(t.rows, Lower(t.verifiers[k])).value, s)
      {
        var key := Lower(t.verifiers[i]);
        if key !in byAddress {
          return false;
        }
        verdicts := verdicts + [VerdictFrom(t.verifiers[i], byAddress[key], s)];
      }
      assert verdicts == Provided(t, s);
      decided := CommitRequest(Some(s.hash), s.hash, s.confidence, verdicts);
      if decided {
        outbox := outbox + NoticeOf(request);
      }
    }

    /** Only the leader's result is stored, whatever the status; every stored result starts a finalizer. */
    method SubmitLeaderResult(sender: string, hash: Option<string>, digest: string, confidence: nat) returns (stored: bool)
      modifies this
      ensures stored <==> sender == old(request).leader
      ensures request ==
              if stored then FinalizeRisk(old(request).(submission := Some(LeaderSubmission(LeaderHash(hash, digest), confidence))))
              else old(request)
      ensures stored && hash.Some? && hash.value != "" ==> request.submission == Some(LeaderSubmission(hash.value, confidence))
      ensures stored && (hash.None? || hash.value == "") ==> request.submission == Some(LeaderSubmission(digest, confidence))
      ensures outbox == old(outbox) + if old(request).status != request.status then NoticeOf(request) else []
      ensures Tells(old(request), request, old(outbox), outbox)
    {
      if sender != request.leader {
        return false;
      }
      request := request.(submission := Some(LeaderSubmission(LeaderHash(hash, digest), confidence)));
      var _ := AttemptFinalizeRequest();
      return true;
    }

    /** Only an assigned verifier stores a verdict; every stored verdict starts a finalizer. */
    method SubmitVerifierVerdict(row: RiskRow) returns (stored: bool)
      modifies this
      ensures stored <==> row.verifier in old(request).verifiers
      ensures request == if stored then FinalizeRisk(Posted(old(request), row)) else old(request)
      ensures outbox == old(outbox) + if old(request).status != request.status then NoticeOf(request) else []
      ensures Tells(old(request), request, old(outbox), outbox)
      ensures WellKept(old(request)) ==> WellKept(request)
    {
      if row.verifier !in request.verifiers {
        return false;
      }
      if WellKept(request) {
        StoringKeepsRows(request, row);
        FinalizingKeepsRows(Posted(request, row));
      }
      request := Posted(request, row);
      var _ := AttemptFinalizeRequest();
      return true;
    }
  }

  method IndexRows(rows: seq<RiskRow>) returns (byAddress: map<string, RiskRow>)
    ensures forall key :: key in byAddress <==> LastRow(rows, key).Some?
    ensures forall key :: key in byAddress ==> LastRow(rows, key) == Some(byAddress[key])
  {
    byAddress := map[];
    for i := 0 to |rows|
      invariant forall key :: key in byAddress <==> LastRow(rows[..i], key).Some?
      invariant forall key :: key in byAddress ==> LastRow(rows[..i], key) == Some(byAddress[key])
    {
      assert rows[..i + 1][..i] == rows[..i];
      byAddress := byAddress[Lower(rows[i].verifier) := rows[i]];
    }
    assert rows[..|rows|] == rows;
  }
}
