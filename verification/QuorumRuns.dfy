/**
 * One request under any interleaving of submissions, claims, polls, key confirmations and
 * finalizer runs, each of them one step. Nodes may resubmit as often as they like.
 */
module QuorumRuns {
  import opened Prelude
  import opened HashTally
  import opened TextRequests

  datatype Clocked = Clocked(request: TextRequest, now: real)

  datatype Step =
    | LeaderSubmits(result: LeaderResult)
    | VerifierSubmits(row: VerdictRow)
    | Finalizes
    | Claims(node: Address)
    | Polls(poller: Address)
    | ConfirmsKey
    | Waits(until: real)

  function Apply(c: Clocked, step: Step): Clocked {
    match step
    case LeaderSubmits(result) => c.(request := LeaderWrite(c.request, result))
    case VerifierSubmits(row) => c.(request := VerifierWrite(c.request, row))
    case Finalizes => c.(request := Finalize(c.request))
    case Claims(node) => c.(request := Claim(c.request, node, c.now))
    case Polls(node) => c.(request := Poll(c.request, node, c.now))
    case ConfirmsKey => c.(request := ConfirmStoreKey(c.request))
    case Waits(until) => c.(now := if until > c.now then until else c.now)
  }

  function Run(c: Clocked, steps: seq<Step>): Clocked
    decreases steps
  {
    if steps == [] then c else Run(Apply(c, steps[0]), steps[1..])
  }

  // --- Well-formedness over runs -----------------------------------------------------

  lemma StepKeepsWellFormed(c: Clocked, step: Step)
    requires WellFormed(c.request)
    ensures WellFormed(Apply(c, step).request)
    ensures Quorum(Apply(c, step).request) == Quorum(c.request)
  {
    if step.VerifierSubmits? && step.row.verifier in c.request.verifiers {
      UpsertKeepsOneRow(c.request.rows, step.row);
    }
  }

  lemma {:induction false} RunKeepsWellFormed(c: Clocked, steps: seq<Step>)
    requires WellFormed(c.request)
    ensures WellFormed(Run(c, steps).request)
    ensures Quorum(Run(c, steps).request) == Quorum(c.request)
    decreases steps
  {
    if steps != [] {
      StepKeepsWellFormed(c, steps[0]);
      RunKeepsWellFormed(Apply(c, steps[0]), steps[1..]);
    }
  }

  // --- Votes as sets of nodes --------------------------------------------------------

  /** The commitment that `node` currently has on record. */
  function VoteOf(t: TextRequest, node: Address): Option<Hash> {
    if node == t.leader then
      if t.result.Some? then Some(t.result.value.hash) else None
    else
      var i := RowOf(t.rows, node);
      if i < |t.rows| then Some(t.rows[i].hash) else None
  }

  /** The assigned nodes whose current commitment is `h`. */
  function Holders(t: TextRequest, h: Hash): set<Address> {
    set a | a in Quorum(t) && VoteOf(t, a) == Some(h)
  }

  /** The verifiers whose row carries `h`. */
  function Supporters(rows: seq<VerdictRow>, h: Hash): set<Address> {
    if rows == [] then {}
    else
      var last := rows[|rows| - 1];
      Supporters(rows[..|rows| - 1], h) + (if last.hash == h then {last.verifier} else {})
  }

  lemma {:induction false} SupportersMembers(rows: seq<VerdictRow>, h: Hash, a: Address)
    ensures a in Supporters(rows, h) <==> exists i :: 0 <= i < |rows| && rows[i].verifier == a && rows[i].hash == h
  {
    if rows != [] {
      var rest := rows[..|rows| - 1];
      SupportersMembers(rest, h, a);
      assert forall i :: 0 <= i < |rest| ==> rest[i] == rows[i];
    }
  }

  lemma LastVoterIsNew(rows: seq<VerdictRow>, h: Hash)
    requires Distinct(Voters(rows)) && rows != []
    ensures rows[|rows| - 1].verifier !in Supporters(rows[..|rows| - 1], h)
  {
    var n := |rows| - 1;
    SupportersMembers(rows[..n], h, rows[n].verifier);
    forall i | 0 <= i < n ensures rows[i].verifier != rows[n].verifier {
      assert Voters(rows)[i] != Voters(rows)[n];
    }
  }

  lemma {:induction false} SupportersCount(rows: seq<VerdictRow>, h: Hash)
    requires Distinct(Voters(rows))
    ensures |Supporters(rows, h)| == Votes(Hashes(rows), h)
  {
    if rows != [] {
      var n := |rows| - 1;
      assert Voters(rows[..n]) == Voters(rows)[..n];
      SupportersCount(rows[..n], h);
      LastVoterIsNew(rows, h);
      assert Hashes(rows) == Hashes(rows[..n]) + [rows[n].hash];
    }
  }

  lemma VoteIsRow(rows: seq<VerdictRow>, a: Address, i: nat)
    requires Distinct(Voters(rows)) && i < |rows| && rows[i].verifier == a
    ensures RowOf(rows, a) == i
  {
    var k := RowOf(rows, a);
    assert k <= i;
    assert Voters(rows)[k] == Voters(rows)[i];
  }

  /** Counting ballots by hash is counting distinct assigned nodes by their vote. */
  lemma HoldersAreVotes(t: TextRequest, h: Hash)
    requires WellFormed(t) && t.result.Some?
    ensures |Holders(t, h)| == Votes(Ballots(t.result.value.hash, Hashes(t.rows)), h)
  {
    var lead: set<Address> := if t.result.value.hash == h then {t.leader} else {};
    SupportersCount(t.rows, h);
    VotesOfBallots(t.result.value.hash, Hashes(t.rows), h);
    LeaderIsNoVerifier(t);
    forall a
      ensures a in Holders(t, h) <==> a in Supporters(t.rows, h) + lead
    {
      HolderIsSupporter(t, h, a);
    }
    assert Holders(t, h) == Supporters(t.rows, h) + lead;
    SupportersMembers(t.rows, h, t.leader);
    assert Supporters(t.rows, h) !! lead by {
      assert forall i :: 0 <= i < |t.rows| ==> t.rows[i] in t.rows;
    }
  }

  lemma LeaderIsNoVerifier(t: TextRequest)
    requires WellFormed(t)
    ensures t.leader !in t.verifiers
  {
    assert Quorum(t)[0] == t.leader;
    assert forall i :: 0 <= i < |t.verifiers| ==> t.verifiers[i] == Quorum(t)[i + 1];
  }

  lemma HolderIsSupporter(t: TextRequest, h: Hash, a: Address)
    requires WellFormed(t) && t.result.Some?
    ensures a in Holders(t, h) <==>
              a in Supporters(t.rows, h) || (a == t.leader && t.result.value.hash == h)
  {
    LeaderIsNoVerifier(t);
    SupportersMembers(t.rows, h, a);
    if a in Supporters(t.rows, h) {
      var i :| 0 <= i < |t.rows| && t.rows[i].verifier == a && t.rows[i].hash == h;
      assert t.rows[i] in t.rows;
      VoteIsRow(t.rows, a, i);
    }
  }

  // --- Safety of acceptance ----------------------------------------------------------

  /** What an accepting finalizer leaves behind. */
  ghost predicate HasQuorum(t: TextRequest) {
    && t.commitment.Some? && t.commitment.value != ""
    && |Holders(t, t.commitment.value)| == t.confirms >= Required(TotalNodes(t))
    && 3 * t.confirms >= 2 * TotalNodes(t)
    && t.confirms + t.rejects == TotalNodes(t)
    && forall h :: h != "" && |Holders(t, h)| >= Required(TotalNodes(t)) ==> h == t.commitment.value
  }

  lemma FinalizeHasQuorum(before: TextRequest)
    requires WellFormed(before) && before.status != Accepted && Finalize(before).status == Accepted
    ensures HasQuorum(Finalize(before))
  {
    var t := Finalize(before);
    var leaderHash, hashes := before.result.value.hash, Hashes(before.rows);
    var winner := t.commitment.value;
    RowsAreBounded(before);
    AcceptedExactly(|before.verifiers|, leaderHash, hashes, winner);
    AcceptedCounts(|before.verifiers|, leaderHash, hashes);
    HoldersAreVotes(t, winner);
    forall h | h != "" && |Holders(t, h)| >= Required(TotalNodes(t)) ensures h == winner {
      HoldersAreVotes(t, h);
      RequiredIsCeiling(TotalNodes(t), |Holders(t, h)|);
      AcceptedExactly(|before.verifiers|, leaderHash, hashes, h);
    }
  }

  /**
   * Whenever a step turns a request accepted, two thirds of the distinct assigned nodes hold
   * the stored commitment at that moment, no other hash has that support, and the two
   * stored counts add up to the quorum. Earlier resubmissions do not weaken this.
   */
  lemma AcceptanceHasQuorum(start: Clocked, steps: seq<Step>, step: Step)
    requires WellFormed(start.request)
    requires Run(start, steps).request.status != Accepted
    requires Apply(Run(start, steps), step).request.status == Accepted
    ensures HasQuorum(Apply(Run(start, steps), step).request)
  {
    RunKeepsWellFormed(start, steps);
    assert step == Finalizes;
    FinalizeHasQuorum(Run(start, steps).request);
  }

  /**
   * Whenever a step turns a request rejected, every verifier has voted and no hash is held
   * by two thirds of the nodes.
   */
  lemma RejectionHasNoQuorum(start: Clocked, steps: seq<Step>, step: Step)
    requires WellFormed(start.request)
    requires Run(start, steps).request.status != Rejected
    requires Apply(Run(start, steps), step).request.status == Rejected
    ensures
      var t := Apply(Run(start, steps), step).request;
      && (forall a :: a in Quorum(t) ==> VoteOf(t, a).Some?)
      && (forall h :: h != "" ==> |Holders(t, h)| < Required(TotalNodes(t)))
      && t.confirms + t.rejects == TotalNodes(t)
  {
    RunKeepsWellFormed(start, steps);
    var before := Run(start, steps).request;
    var t := Apply(Run(start, steps), step).request;
    assert step == Finalizes;
    RowsAreBounded(before);
    var ballots := Ballots(before.result.value.hash, Hashes(before.rows));
    DecideMeetsRule(|before.verifiers|, before.result.value.hash, Hashes(before.rows));
    forall h | h != "" ensures |Holders(t, h)| < Required(TotalNodes(t)) {
      HoldersAreVotes(t, h);
      RequiredIsCeiling(TotalNodes(t), Votes(ballots, h));
      assert !TwoThirds(ballots, TotalNodes(t), h);
    }
    forall a | a in Quorum(t) ensures VoteOf(t, a).Some? {
      if a != t.leader {
        assert a in t.verifiers;
        var k :| 0 <= k < |t.rows| && Voters(t.rows)[k] == a;
        assert t.rows[k].verifier == a;
      }
    }
  }

  // --- Status lifecycle --------------------------------------------------------------

  /** Every status change a step can make. */
  predicate Moves(before: Status, after: Status) {
    || before == after
    || (before == PendingStoreKey && after == Queued)
    || (before == Queued && Final(after))
  }

  ghost predicate Reachable(s: Status) {
    s != Dispatched && s != Running
  }

  lemma StepMoves(c: Clocked, step: Step)
    requires Reachable(c.request.status)
    ensures Moves(c.request.status, Apply(c, step).request.status)
    ensures Apply(c, step).request.status == Accepted && c.request.status != Accepted ==> step == Finalizes
    ensures Apply(c, step).request.status == Rejected && c.request.status != Rejected ==> step == Finalizes
    ensures Apply(c, step).request.status == Failed && c.request.status != Failed ==> step.Polls?
  {
  }

  /**
   * Over every run, accepted, rejected and failed are kept for ever, a request waiting for
   * its key can only become queued first, and each intermediate status is one of the five
   * that the service writes.
   */
  lemma {:induction false} LifecycleOverRuns(c: Clocked, steps: seq<Step>)
    requires Reachable(c.request.status)
    ensures Reachable(Run(c, steps).request.status)
    ensures Final(c.request.status) ==> Run(c, steps).request.status == c.request.status
    ensures c.request.status == Queued ==> Run(c, steps).request.status != PendingStoreKey
    ensures c.request.status == PendingStoreKey && Run(c, steps).request.status != PendingStoreKey ==>
              exists k :: 0 <= k < |steps| && steps[k] == ConfirmsKey
    decreases steps
  {
    if steps != [] {
      StepMoves(c, steps[0]);
      LifecycleOverRuns(Apply(c, steps[0]), steps[1..]);
      if c.request.status == PendingStoreKey && Run(c, steps).request.status != PendingStoreKey {
        if steps[0] == ConfirmsKey {
        } else {
          var k :| 0 <= k < |steps[1..]| && steps[1..][k] == ConfirmsKey;
          assert steps[k + 1] == ConfirmsKey;
        }
      }
    }
  }

  // --- Timeouts ----------------------------------------------------------------------

  /** A failed entry was claimed more than the timeout ago; an open claim lies in the past. */
  ghost predicate TimeoutsJustified(c: Clocked) {
    forall a :: a in c.request.nodes ==>
      var e := c.request.nodes[a];
      && (e.claimedAt.Some? ==> e.claimedAt.value <= c.now)
      && (e.status == TimedOut ==> e.claimedAt.Some? && c.now - e.claimedAt.value > CLAIM_TIMEOUT)
  }

  lemma StepKeepsTimeoutsJustified(c: Clocked, step: Step)
    requires TimeoutsJustified(c)
    ensures TimeoutsJustified(Apply(c, step))
  {
  }

  lemma {:induction false} RunKeepsTimeoutsJustified(c: Clocked, steps: seq<Step>)
    requires TimeoutsJustified(c)
    ensures TimeoutsJustified(Run(c, steps))
    decreases steps
  {
    if steps != [] {
      StepKeepsTimeoutsJustified(c, steps[0]);
      RunKeepsTimeoutsJustified(Apply(c, steps[0]), steps[1..]);
    }
  }

  /**
   * A request fails only in a poll by an assigned node whose own claim is overdue, and at
   * that moment the leader and every verifier are marked failed, each with a recorded
   * claim more than the timeout old.
   */
  lemma FailureIsJustified(start: Clocked, steps: seq<Step>, step: Step)
    requires WellFormed(start.request) && Reachable(start.request.status) && TimeoutsJustified(start)
    requires Run(start, steps).request.status != Failed
    requires Apply(Run(start, steps), step).request.status == Failed
    ensures
      var before := Run(start, steps);
      var t := Apply(before, step).request;
      && before.request.status == Queued
      && step.Polls? && step.poller in Quorum(t) && Overdue(before.request, step.poller, before.now)
      && forall a :: a in Quorum(t) ==>
           a in t.nodes && t.nodes[a].status == TimedOut && t.nodes[a].claimedAt.Some?
           && before.now - t.nodes[a].claimedAt.value > CLAIM_TIMEOUT
  {
    var before := Run(start, steps);
    RunKeepsWellFormed(start, steps);
    LifecycleOverRuns(start, steps);
    RunKeepsTimeoutsJustified(start, steps);
    StepMoves(before, step);
    StepKeepsTimeoutsJustified(before, step);
    StepKeepsWellFormed(before, step);
  }

  /** Only an overdue claim of the polling node itself is ever marked failed. */
  lemma OnlyOverdueEntriesFail(c: Clocked, step: Step, node: Address)
    requires node in Apply(c, step).request.nodes && Apply(c, step).request.nodes[node].status == TimedOut
    requires !(node in c.request.nodes && c.request.nodes[node].status == TimedOut)
    requires WellFormed(c.request)
    ensures step == Polls(node) && Open(c.request.status) && Overdue(c.request, node, c.now)
    ensures Apply(c, step).request.nodes[node].claimedAt == c.request.nodes[node].claimedAt
  {
  }
}
