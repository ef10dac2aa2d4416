/**
 * What the racing calls of `FinalizerRace` leave behind: exactly when a request has one
 * outcome and shows it, exactly when its decision is lost, and what disciplines are enough.
 */
module RaceOutcomes {
  import opened Prelude
  import opened HashTally
  import opened TextRequests
  import opened NodeCalls
  import opened QuorumRuns
  import opened FinalizerRace

  // --- Which step changes a status ---------------------------------------------------

  function StatusOf(o: Outcome): Status {
    match o
    case AcceptedWith(_) => Accepted
    case RejectedByQuorum => Rejected
    case FailedByTimeout => Failed
  }

  /** What a move writes into the log. */
  function Written(s: Race, m: Move): seq<Outcome>
    requires Enabled(s, m)
  {
    if m.Writes? then OutcomeOf(s.request, s.flight[m.pid])
    else if m.Node? && m.step.Fails? then [FailedByTimeout]
    else []
  }

  /** Puts a status back that was found before. */
  predicate Reverts(m: Move) {
    m.Confirms? || m.Opens?
  }

  function RevertedTo(s: Race, m: Move): Status
    requires Enabled(s, m) && Reverts(m)
  {
    if m.Opens? && s.drafts[m.pid].keyPending then PendingStoreKey else Queued
  }

  /** Only an outcome that is written, a key confirmation and the end of the creation change the status. */
  lemma StatusChanges(s: Race, m: Move)
    requires Enabled(s, m)
    ensures After(s, m).log == s.log + Written(s, m)
    ensures After(s, m).request.status ==
            if Reverts(m) then RevertedTo(s, m) else if Written(s, m) != [] then StatusOf(Written(s, m)[0]) else s.request.status
  {
  }

  /** A write that finds a final status other than the one it writes. */
  predicate Overwrites(s: Race, m: Move)
    requires Enabled(s, m)
  {
    Final(s.request.status) && (Reverts(m) || (Written(s, m) != [] && StatusOf(Written(s, m)[0]) != s.request.status))
  }

  /** With calls interleaved, final statuses are absorbing exactly as long as no write comes late. */
  lemma FinalStatusStaysExactly(s: Race, m: Move)
    requires Enabled(s, m) && Final(s.request.status)
    ensures After(s, m).request.status == s.request.status <==> !Overwrites(s, m)
  {
    StatusChanges(s, m);
  }

  ghost predicate Sometime(s: Race, moves: seq<Move>, happens: (Race, Move) -> bool)
    decreases moves
  {
    moves != [] && Enabled(s, moves[0]) && (happens(s, moves[0]) || Sometime(After(s, moves[0]), moves[1..], happens))
  }

  /** A poll reads again and finds an unfinished request with every member's entry failed. */
  predicate SeesAllFailed(s: Race, m: Move) {
    && m.Node? && m.step.Rechecks? && Enabled(s, m) && Open(s.request.status)
    && forall a :: a in Quorum(s.request) ==> a in s.request.nodes && s.request.nodes[a].status == TimedOut
  }

  ghost predicate NobodyDoomed(s: Race) {
    FailedByTimeout !in s.log && forall id :: id in s.calls ==> !s.calls[id].Doomed?
  }

  /** A timeout is written only after some poll has seen every member failed, though not necessarily while they still are. */
  lemma {:induction false} TimeoutWasSeen(s: Race, moves: seq<Move>)
    requires Sturdy(s) && NobodyDoomed(s) && FailedByTimeout in Play(s, moves).log
    ensures Sometime(s, moves, SeesAllFailed)
    decreases moves
  {
    if moves != [] && Enabled(s, moves[0]) && !SeesAllFailed(s, moves[0]) {
      MoveKeepsSturdy(s, moves[0]);
      OnlySightDooms(s, moves[0]);
      TimeoutWasSeen(After(s, moves[0]), moves[1..]);
    }
  }

  lemma OnlySightDooms(s: Race, m: Move)
    requires Sturdy(s) && NobodyDoomed(s) && Enabled(s, m) && !SeesAllFailed(s, m)
    ensures NobodyDoomed(After(s, m))
  {
    StatusChanges(s, m);
    if m.Node? && m.step.Rechecks? && AllTimedOut(s.request.nodes) {
      assert forall a :: a in Quorum(s.request) ==> a in s.request.nodes;
    }
  }

  // --- One outcome, and the document shows it ----------------------------------------

  /**
   * The document shows the outcome that was written last; its commitment is the accepted
   * hash unless a leader that was outvoted has posted its own hash again.
   */
  ghost predicate Shows(t: TextRequest, log: seq<Outcome>) {
    if log == [] then t.status == Queued || t.status == PendingStoreKey
    else
      match log[|log| - 1]
      case AcceptedWith(h) =>
        t.status == Accepted && (t.commitment == Some(h) || (t.result.Some? && t.commitment == Some(t.result.value.hash)))
      case RejectedByQuorum => t.status == Rejected
      case FailedByTimeout => t.status == Failed
  }

  /** A confirmation or a creation that found the status unfinished writes after it became final. */
  predicate Reopens(s: Race, m: Move) {
    Reverts(m) && Final(s.request.status)
  }

  lemma WriteShows(t: TextRequest, p: Phase, log: seq<Outcome>)
    requires Shows(t, log) && p.HasRows?
    ensures Shows(WriteDecision(t, p.seen, p.kept, p.rows), log + OutcomeOf(t, p))
  {
    match Decide(|t.verifiers|, p.seen.hash, Hashes(p.rows))
    case Undecided => assert log + OutcomeOf(t, p) == log;
    case Accept(_, _, _) =>
    case Reject(_, _) =>
  }

  lemma SubmissionKeepsShows(s: Race, m: Move)
    requires Shows(AsPosted(s), s.log) && Enabled(s, m) && KeepsHash(s, m) && Submits(m)
    ensures Shows(AsPosted(After(s, m)), After(s, m).log)
  {
  }

  /** The document shows the last outcome after a move exactly if the move is no such write. */
  lemma MoveShowsExactly(s: Race, m: Move)
    requires Shows(AsPosted(s), s.log) && Enabled(s, m) && KeepsHash(s, m)
    ensures Shows(AsPosted(After(s, m)), After(s, m).log) <==> !Reopens(s, m)
  {
    if Submits(m) {
      SubmissionKeepsShows(s, m);
    } else if m.Writes? {
      var p := s.flight[m.pid];
      WriteShows(AsPosted(s), p, s.log);
      assert AsPosted(After(s, m)) == WriteDecision(AsPosted(s), p.seen, p.kept, p.rows);
    }
  }

  ghost predicate OneKind(log: seq<Outcome>) {
    forall i, j :: 0 <= i < |log| && 0 <= j < |log| ==> log[i] == log[j]
  }

  lemma OneKindAppend(log: seq<Outcome>, o: Outcome)
    requires OneKind(log)
    ensures OneKind(log + [o]) <==> log == [] || log[|log| - 1] == o
  {
    var more := log + [o];
    if log != [] && log[|log| - 1] != o {
      assert more[|log| - 1] != more[|log|];
    }
  }

  /** All outcomes written so far are the same, and the document shows it. */
  ghost predicate Settled(s: Race) {
    Shows(AsPosted(s), s.log) && OneKind(s.log)
  }

  /**
   * A write that finds the status changed by an outcome of another kind since it read: a
   * decision onto a failed request, a timeout onto a decided one, a confirmation or the end
   * of the creation onto either.
   */
  predicate Harmful(s: Race, m: Move) {
    match m
    case Writes(pid) => Enabled(s, m) && OutcomeOf(s.request, s.flight[pid]) != [] && s.request.status == Failed
    case Node(step) => step.Fails? && (s.request.status == Accepted || s.request.status == Rejected)
    case Confirms(_) => Final(s.request.status)
    case Opens(_) => Final(s.request.status)
    case _ => false
  }

  predicate Harmless(s: Race, m: Move) {
    KeepsHash(s, m) && !Harmful(s, m)
  }

  lemma DecisionsAgree(t: TextRequest, one: Outcome, other: Outcome)
    requires Backed(t, one) && Backed(t, other) && one != FailedByTimeout && other != FailedByTimeout
    ensures one == other
  {
  }

  /** A decision joins the outcomes so far exactly if these are not timeouts. */
  lemma DecisionJoinsExactly(s: Race, o: Outcome)
    requires LogBacked(s) && Settled(s) && Backed(AsPosted(s), o) && o != FailedByTimeout
    ensures OneKind(s.log + [o]) <==> s.request.status != Failed
  {
    OneKindAppend(s.log, o);
    if s.log != [] {
      var last := s.log[|s.log| - 1];
      assert last in s.log && Backed(AsPosted(s), last);
      if last != FailedByTimeout {
        DecisionsAgree(AsPosted(s), last, o);
      }
    }
  }

  lemma WriteSettlesExactly(s: Race, pid: nat)
    requires Consistent(s) && Settled(s) && Enabled(s, Writes(pid))
    ensures Settled(After(s, Writes(pid))) <==> !Harmful(s, Writes(pid))
  {
    var p := s.flight[pid];
    MoveShowsExactly(s, Writes(pid));
    assert Snapshot(AsPosted(s), p);
    WriteIsBacked(AsPosted(s), p);
    if OutcomeOf(s.request, p) == [] {
      assert s.log + [] == s.log;
    } else {
      var o := OutcomeOf(s.request, p)[0];
      assert o in OutcomeOf(AsPosted(s), p);
      DecisionJoinsExactly(s, o);
    }
  }

  lemma FailSettlesExactly(s: Race, id: nat)
    requires Settled(s) && Enabled(s, Node(Fails(id)))
    ensures Settled(After(s, Node(Fails(id)))) <==> !Harmful(s, Node(Fails(id)))
  {
    MoveShowsExactly(s, Node(Fails(id)));
    OneKindAppend(s.log, FailedByTimeout);
  }

  /** One outcome, shown by the document, survives a move exactly if the move is not such a write. */
  lemma MoveSettlesExactly(s: Race, m: Move)
    requires Consistent(s) && Settled(s) && Enabled(s, m) && KeepsHash(s, m)
    ensures Settled(After(s, m)) <==> !Harmful(s, m)
  {
    if m.Writes? {
      WriteSettlesExactly(s, m.pid);
    } else if m.Node? && m.step.Fails? {
      FailSettlesExactly(s, m.step.id);
    } else {
      MoveShowsExactly(s, m);
      StatusChanges(s, m);
    }
  }

  /** At every moment of the run. */
  ghost predicate Always(s: Race, moves: seq<Move>, good: Race -> bool)
    decreases moves
  {
    good(s) && (moves == [] || (Enabled(s, moves[0]) && Always(After(s, moves[0]), moves[1..], good)))
  }

  lemma {:induction false} RunSettlesExactly(s: Race, moves: seq<Move>)
    requires Consistent(s) && Settled(s) && Throughout(s, moves, KeepsHash)
    ensures Always(s, moves, Settled) <==> Throughout(s, moves, Harmless)
    ensures Throughout(s, moves, Harmless) ==> Settled(Play(s, moves))
    decreases moves
  {
    if moves != [] {
      MoveSettlesExactly(s, moves[0]);
      MoveKeepsConsistent(s, moves[0]);
      if Settled(After(s, moves[0])) {
        RunSettlesExactly(After(s, moves[0]), moves[1..]);
      }
    }
  }

  /**
   * If no node changes its hash: at every moment all outcomes written so far, timeouts
   * included, are one and the same and the document shows it, exactly if no decision is
   * written onto a failed request, no timeout onto a decided one, and no key confirmation or
   * end of the creation onto either.
   */
  lemma OneOutcomePerRequest(s: Race, moves: seq<Move>)
    requires Fresh(s) && WellFormed(s.request) && Throughout(s, moves, KeepsHash)
    ensures Always(s, moves, Settled) <==> Throughout(s, moves, Harmless)
    ensures Throughout(s, moves, Harmless) ==> OneKind(Play(s, moves).log) && Shows(AsPosted(Play(s, moves)), Play(s, moves).log)
  {
    RunSettlesExactly(s, moves);
  }

  /** What is in the log of such a request is what the document shows. */
  lemma LastOutcomeIsEvery(s: Race, o: Outcome)
    requires Consistent(s) && Settled(s) && o in s.log
    ensures s.log[|s.log| - 1] == o && s.request.status == StatusOf(o)
    ensures o.AcceptedWith? ==> o.hash != ""
  {
    if o.AcceptedWith? {
      BackedIsTwoThirds(AsPosted(s), o);
      assert HeldByTwoThirds(AsPosted(s), o.hash);
    }
  }

  // --- A discipline that is enough ---------------------------------------------------

  /** Puts metadata without the leader's result over metadata that have it. */
  predicate Erases(s: Race, m: Move) {
    (m.Confirms? || m.Attaches? || m.Opens?) && Enabled(s, m) && Held(s.drafts[m.pid]).None? && s.request.result.Some?
  }

  predicate Disturbs(s: Race, m: Move) {
    Erases(s, m) || Reopens(s, m)
  }

  predicate Undisturbed(s: Race, m: Move) {
    KeepsHash(s, m) && !Disturbs(s, m)
  }

  /**
   * The leader's post is written while no claim, no poll and no other post is under way, and
   * afterwards the leader claims no more.
   */
  predicate Orderly(s: Race, m: Move) {
    && Undisturbed(s, m)
    && (m.Leader? ==> s.calls == map[] && forall pid :: pid in s.drafts && s.drafts[pid].Posting? ==> pid == m.pid)
    && (m.Node? && m.step.ReadsForClaim? && m.step.node == s.request.leader ==> s.said.None?)
  }

  predicate Done(nodes: Entries, leader: Address) {
    leader in nodes && nodes[leader].status == Completed
  }

  /** A call that neither writes the leader's entry nor holds an older one. */
  predicate Spares(c: Call, leader: Address) {
    match c
    case Claiming(node, _, base) => node != leader && Done(base, leader)
    case Listed(_, _) => true
    case Late(node) => node != leader
    case Marking(node, read) => node != leader && Done(read, leader)
    case Marked => true
    case Doomed => false
  }

  /** Once the leader has posted, its entry is completed and stays so. */
  ghost predicate LeaderDone(s: Race) {
    && Done(s.request.nodes, s.request.leader)
    && (forall id :: id in s.calls ==> Spares(s.calls[id], s.request.leader))
    && (forall pid :: pid in s.drafts && s.drafts[pid].Posting? ==> Done(s.drafts[pid].base, s.request.leader))
  }

  /** A timeout is only ever on its way before the leader posts, and once written nothing else is. */
  ghost predicate TimeoutStandsAlone(s: Race) {
    && (s.said.Some? ==> LeaderDone(s))
    && (FailedByTimeout in s.log ==>
          && s.request.status == Failed
          && (forall o :: o in s.log ==> o == FailedByTimeout)
          && forall p :: p in s.flight ==> s.flight[p].Spawned?)
  }

  lemma PostKeepsTimeoutAlone(s: Race, m: Move)
    requires TimeoutStandsAlone(s) && Enabled(s, m) && Orderly(s, m) && (Submits(m) || m.ReadsForPost?)
    ensures TimeoutStandsAlone(After(s, m))
  {
  }

  /** Before the leader has posted nothing can have been decided, nor be about to be. */
  lemma SilenceDecidesNothing(s: Race)
    requires Consistent(s) && s.said.None?
    ensures forall o :: o in s.log ==> o == FailedByTimeout
    ensures forall p :: p in s.flight ==> s.flight[p].Spawned?
  {
    forall o | o in s.log ensures o == FailedByTimeout {
      assert Backed(AsPosted(s), o);
    }
    forall p | p in s.flight ensures s.flight[p].Spawned? {
      assert Snapshot(AsPosted(s), s.flight[p]);
    }
  }

  lemma NodeKeepsLeaderDone(s: Race, step: NodeStep)
    requires LeaderDone(s) && Enabled(s, Node(step)) && Orderly(s, Node(step)) && s.said.Some?
    ensures LeaderDone(AfterNode(s, step)) && !step.Fails?
  {
    if step.id in s.calls {
      assert Spares(s.calls[step.id], s.request.leader);
    }
  }

  lemma NodeKeepsTimeoutAlone(s: Race, step: NodeStep)
    requires Consistent(s) && TimeoutStandsAlone(s) && Enabled(s, Node(step)) && Orderly(s, Node(step))
    ensures TimeoutStandsAlone(AfterNode(s, step))
  {
    if s.said.Some? {
      NodeKeepsLeaderDone(s, step);
    } else {
      SilenceDecidesNothing(s);
    }
  }

  lemma FinalizerKeepsTimeoutAlone(s: Race, m: Move)
    requires TimeoutStandsAlone(s) && Enabled(s, m) && (m.Begins? || m.Reads? || m.Writes?)
    ensures TimeoutStandsAlone(After(s, m))
  {
    StatusChanges(s, m);
  }

  lemma MoveKeepsTimeoutAlone(s: Race, m: Move)
    requires Consistent(s) && TimeoutStandsAlone(s) && Enabled(s, m) && Orderly(s, m)
    ensures TimeoutStandsAlone(After(s, m))
  {
    if m.Node? {
      NodeKeepsTimeoutAlone(s, m.step);
    } else if m.Begins? || m.Reads? || m.Writes? {
      FinalizerKeepsTimeoutAlone(s, m);
    } else if Submits(m) || m.ReadsForPost? {
      PostKeepsTimeoutAlone(s, m);
    }
  }

  lemma OrderlyIsHarmless(s: Race, m: Move)
    requires Consistent(s) && Settled(s) && TimeoutStandsAlone(s) && Enabled(s, m) && Orderly(s, m)
    ensures Harmless(s, m)
  {
    if m.Node? && m.step.Fails? {
      assert s.said.Some? ==> Spares(s.calls[m.step.id], s.request.leader);
      SilenceDecidesNothing(s);
    }
    assert s.log != [] ==> s.log[|s.log| - 1] in s.log;
  }

  /** So under this discipline a request has one outcome and shows it, timeouts included. */
  lemma {:induction false} OrderlyRunsAreHarmless(s: Race, moves: seq<Move>)
    requires Consistent(s) && Settled(s) && TimeoutStandsAlone(s) && Throughout(s, moves, Orderly)
    ensures Throughout(s, moves, Harmless)
    ensures Consistent(Play(s, moves)) && Settled(Play(s, moves)) && TimeoutStandsAlone(Play(s, moves))
    decreases moves
  {
    if moves != [] {
      OrderlyIsHarmless(s, moves[0]);
      MoveSettlesExactly(s, moves[0]);
      MoveKeepsConsistent(s, moves[0]);
      MoveKeepsTimeoutAlone(s, moves[0]);
      OrderlyRunsAreHarmless(After(s, moves[0]), moves[1..]);
    }
  }
}
