/**
 * Exactly when a risk request that all calls have left alone is decided, what one claim can
 * do to it, and what a commit from outside can.
 */
module RiskDecisions {
  import opened Prelude
  import opened TextRequests
  import opened NodeCalls
  import opened VerdictAggregator
  import opened RiskRequests
  import opened RiskRaces

  ghost predicate Sometime(r: Race, moves: seq<Move>, happens: (Race, Move) -> bool)
    decreases moves
  {
    moves != [] && Enabled(r, moves[0]) && (happens(r, moves[0]) || Sometime(After(r, moves[0]), moves[1..], happens))
  }

  // --- Commits on their way ----------------------------------------------------------

  predicate Passed(p: Phase) {
    p.Rewriting? || p.Certified?
  }

  ghost predicate SomePassed(flight: map<nat, Phase>) {
    exists pid :: pid in flight && Passed(flight[pid])
  }

  /** A decision has been written, or some commit has passed its status test and is sure to write one. */
  ghost predicate InHand(r: Race) {
    DecisionLogged(r.log) || SomePassed(r.flight)
  }

  /** A poll fails the request before any commit has passed its status test. */
  ghost predicate Stops(r: Race, m: Move) {
    m.Node? && m.step.Fails? && !InHand(r)
  }

  /** Failed, and nothing will ever change that. */
  ghost predicate Blocked(r: Race) {
    r.request.status == RiskFailed && !InHand(r)
  }

  ghost predicate StillOpen(r: Race) {
    InHand(r) || r.request.status == RiskQueued
  }

  lemma MoveKeepsInHand(r: Race, m: Move)
    requires InHand(r) && Enabled(r, m)
    ensures InHand(After(r, m))
  {
    if DecisionLogged(r.log) {
      var o :| o in r.log && o.Decides?;
      assert o in After(r, m).log;
    } else {
      var pid :| pid in r.flight && Passed(r.flight[pid]);
      if m.Writes? && m.pid == pid {
        assert Decides(DecisionOf(r.request, r.flight[pid].done)) in After(r, m).log;
      } else {
        assert pid in After(r, m).flight && Passed(After(r, m).flight[pid]);
      }
    }
  }

  /** Only the last step of a commit logs a decision. */
  lemma DecisionsAreWritten(r: Race, m: Move)
    requires Enabled(r, m) && !m.Writes?
    ensures DecisionLogged(After(r, m).log) <==> DecisionLogged(r.log)
  {
    if m.Node? && m.step.Fails? {
      DecisionLoggedAppend(r.log, TimesOut);
    } else {
      assert m.Node? ==> r.log + [] == r.log;
    }
  }

  /** Only a status test that finds the request queued brings a decision on its way. */
  lemma NewInHand(r: Race, m: Move)
    requires !InHand(r) && Enabled(r, m) && InHand(After(r, m))
    ensures m.Checks? && r.request.status == RiskQueued && Committable(r.request)
  {
    var r' := After(r, m);
    assert m.Writes? ==> Passed(r.flight[m.pid]);
    if !m.Writes? {
      DecisionsAreWritten(r, m);
      var pid :| pid in r'.flight && Passed(r'.flight[pid]);
      assert pid in r.flight ==> !Passed(r.flight[pid]);
    }
  }

  /** A status test that lets its commit go on. */
  predicate PassesTest(r: Race, m: Move) {
    m.Checks? && Enabled(r, m) && Committable(r.request)
  }

  lemma MoveInHandExactly(r: Race, m: Move)
    requires Enabled(r, m)
    ensures InHand(After(r, m)) <==> InHand(r) || PassesTest(r, m)
  {
    if InHand(r) {
      MoveKeepsInHand(r, m);
    } else if PassesTest(r, m) {
      assert m.pid in After(r, m).flight && Passed(After(r, m).flight[m.pid]);
    } else if InHand(After(r, m)) {
      NewInHand(r, m);
    }
  }

  lemma {:induction false} RunInHandExactly(r: Race, moves: seq<Move>, ok: (Race, Move) -> bool)
    requires Throughout(r, moves, ok)
    ensures InHand(Play(r, moves)) <==> InHand(r) || Sometime(r, moves, PassesTest)
    decreases moves
  {
    if moves != [] {
      MoveInHandExactly(r, moves[0]);
      RunInHandExactly(After(r, moves[0]), moves[1..], ok);
    }
  }

  /**
   * In any run, direct commits, timeouts and lost submissions included: once all finalizers
   * and commits are done, a decision was written exactly if some commit passed its status
   * test.
   */
  lemma DecisionWrittenExactly(r: Race, moves: seq<Move>, ok: (Race, Move) -> bool)
    requires Fresh(r) && Throughout(r, moves, ok) && Play(r, moves).flight == map[]
    ensures DecisionLogged(Play(r, moves).log) <==> Sometime(r, moves, PassesTest)
  {
    RunInHandExactly(r, moves, ok);
    assert !DecisionLogged(r.log);
  }

  lemma MoveKeepsBlocked(r: Race, m: Move)
    requires Blocked(r) && Enabled(r, m)
    ensures Blocked(After(r, m))
  {
    assert m.Writes? ==> Passed(r.flight[m.pid]);
    if InHand(After(r, m)) {
      NewInHand(r, m);
    }
  }

  /** A request that was failed before any commit passed its test is never decided, whoever posts or commits afterwards. */
  lemma {:induction false} StoppedIsNeverDecided(r: Race, moves: seq<Move>, ok: (Race, Move) -> bool)
    requires Blocked(r) && Throughout(r, moves, ok)
    ensures Blocked(Play(r, moves)) && !DecisionLogged(Play(r, moves).log) && Play(r, moves).request.status == RiskFailed
    decreases moves
  {
    if moves != [] {
      MoveKeepsBlocked(r, moves[0]);
      StoppedIsNeverDecided(After(r, moves[0]), moves[1..], ok);
    }
  }

  lemma MoveKeepsOpenExactly(r: Race, m: Move)
    requires StillOpen(r) && Enabled(r, m)
    ensures if Stops(r, m) then Blocked(After(r, m)) else StillOpen(After(r, m))
  {
    assert m.Writes? ==> Passed(r.flight[m.pid]);
    if InHand(r) {
      MoveKeepsInHand(r, m);
    } else if Stops(r, m) && InHand(After(r, m)) {
      NewInHand(r, m);
    }
  }

  lemma {:induction false} RunStaysOpenExactly(r: Race, moves: seq<Move>, ok: (Race, Move) -> bool)
    requires StillOpen(r) && Throughout(r, moves, ok)
    ensures if Sometime(r, moves, Stops) then Blocked(Play(r, moves)) else StillOpen(Play(r, moves))
    decreases moves
  {
    if moves != [] {
      MoveKeepsOpenExactly(r, moves[0]);
      if Stops(r, moves[0]) {
        StoppedIsNeverDecided(After(r, moves[0]), moves[1..], ok);
      } else {
        RunStaysOpenExactly(After(r, moves[0]), moves[1..], ok);
      }
    }
  }

  // --- Everyone has posted -----------------------------------------------------------

  /** Puts metadata without the leader's submission over metadata that have it. */
  predicate Erases(r: Race, m: Move) {
    && Enabled(r, m) && r.request.submission.Some?
    && ((m.Attaches? && r.drafts[m.pid].held.None?) || (m.Writes? && r.flight[m.pid].back.None?))
  }

  /** Nobody calls the commit from outside, and no stale metadata are put over the submission. */
  predicate Undisturbed(r: Race, m: Move) {
    !m.Direct? && !Erases(r, m)
  }

  predicate Full(verifiers: seq<string>, p: Proposal) {
    |p.provided| == |verifiers| && RiskRequests.Listed(verifiers, p.provided)
  }

  /** A commit under way was proposed when everyone had posted. */
  predicate Justified(t: RiskRequest, said: bool, p: Phase) {
    match p
    case Spawned => true
    case Begun(_) => said
    case Proposed(p) => said && Full(t.verifiers, p) && AllIn(t)
    case Rewriting(p, _, _) => said && Full(t.verifiers, p) && AllIn(t)
    case Certified(p, _) => said && Full(t.verifiers, p) && AllIn(t)
  }

  ghost predicate AllJustified(r: Race) {
    && WellKept(r.request)
    && (forall pid :: pid in r.flight ==> Justified(r.request, r.said.Some?, r.flight[pid]))
    && (DecisionLogged(r.log) ==> AllIn(r.request) && r.said.Some?)
  }

  /** What document and drafts hold of the leader has been said, and the document still holds it. */
  ghost predicate SubmissionStays(r: Race) {
    && (r.said.Some? <==> r.request.submission.Some?)
    && (forall pid :: pid in r.drafts && r.drafts[pid].Attaching? && r.drafts[pid].held.Some? ==> r.said.Some?)
  }

  predicate Answering(d: Draft) {
    d.Answered? || d.Completing?
  }

  /** While a decision is due somebody is under way to make it. */
  ghost predicate Attended(r: Race) {
    Ready(r.request) ==> r.flight != map[] || exists pid :: pid in r.drafts && Answering(r.drafts[pid])
  }

  lemma StoringKeepsAllIn(t: RiskRequest, row: RiskRow)
    requires WellKept(t) && row.verifier in t.verifiers && AllIn(t)
    ensures AllIn(t.(rows := Stored(t.rows, row)))
  {
    forall v | v in t.verifiers ensures LastRow(Stored(t.rows, row), Lower(v)).Some? {
      LastRowAfterStore(t, row, v);
    }
  }

  lemma RewrittenIsListed(t: RiskRequest, p: Proposal, i: nat)
    requires WellKept(t) && Full(t.verifiers, p) && i < |t.verifiers|
    ensures Settled(Counted(t, p, i)).verifier == t.verifiers[i]
  {
    ListedAreCounted(t.verifiers, p.provided);
    assert VerdictsOf(t.verifiers, p.provided)[i] == p.provided[i];
  }

  lemma RowMoveKeepsJustified(r: Race, m: Move)
    requires AllJustified(r) && Enabled(r, m) && (m.Verifier? || m.Rewrites?)
    ensures AllJustified(After(r, m))
  {
    var row: RiskRow;
    if m.Verifier? {
      row := m.row;
    } else {
      assert Justified(r.request, r.said.Some?, r.flight[m.pid]);
      row := Settled(Counted(r.request, r.flight[m.pid].passed, r.flight[m.pid].next));
      RewrittenIsListed(r.request, r.flight[m.pid].passed, r.flight[m.pid].next);
    }
    StoringKeepsRows(r.request, row);
    RowsKeepJustified(r, After(r, m), row);
  }

  lemma RowsKeepJustified(r: Race, r': Race, row: RiskRow)
    requires AllJustified(r) && row.verifier in r.request.verifiers
    requires r'.request == r.request.(rows := Stored(r.request.rows, row)) && r'.log == r.log && r'.said == r.said
    requires WellKept(r'.request)
    requires forall pid :: pid in r'.flight ==>
               && pid in r.flight
               && (r'.flight[pid] == r.flight[pid]
                   || (r.flight[pid].Rewriting? && r'.flight[pid].Rewriting? && r'.flight[pid].passed == r.flight[pid].passed))
    ensures AllJustified(r')
  {
    if AllIn(r.request) {
      StoringKeepsAllIn(r.request, row);
    }
    forall pid | pid in r'.flight ensures Justified(r'.request, r'.said.Some?, r'.flight[pid]) {
      assert Justified(r.request, r.said.Some?, r.flight[pid]);
    }
  }

  lemma WriteKeepsJustified(r: Race, m: Move)
    requires AllJustified(r) && Enabled(r, m) && m.Writes?
    ensures AllJustified(After(r, m))
  {
    assert Justified(r.request, r.said.Some?, r.flight[m.pid]);
  }

  lemma ProvidedIsFull(t: RiskRequest, s: LeaderSubmission)
    requires AllIn(t)
    ensures Full(t.verifiers, ProposalOf(t, s))
  {
  }

  lemma FinalizerKeepsJustified(r: Race, m: Move)
    requires AllJustified(r) && SubmissionStays(r) && Enabled(r, m) && (m.Begins? || m.Checks? || m.Certifies?)
    ensures AllJustified(After(r, m))
  {
    assert Justified(r.request, r.said.Some?, r.flight[m.pid]);
  }

  lemma GatheringKeepsJustified(r: Race, m: Move)
    requires AllJustified(r) && Enabled(r, m) && m.Gathers?
    ensures AllJustified(After(r, m))
  {
    assert Justified(r.request, r.said.Some?, r.flight[m.pid]);
    if AllIn(r.request) {
      ProvidedIsFull(r.request, r.flight[m.pid].submission);
    }
  }

  lemma OtherKeepsJustified(r: Race, m: Move)
    requires AllJustified(r) && Enabled(r, m) && !Commits(m) && !m.Verifier? && !m.Direct?
    ensures AllJustified(After(r, m))
  {
    DecisionsAreWritten(r, m);
  }

  lemma MoveKeepsJustified(r: Race, m: Move)
    requires AllJustified(r) && SubmissionStays(r) && Enabled(r, m) && Undisturbed(r, m)
    ensures AllJustified(After(r, m)) && After(r, m).request.verifiers == r.request.verifiers
  {
    if m.Verifier? || m.Rewrites? {
      RowMoveKeepsJustified(r, m);
    } else if m.Writes? {
      WriteKeepsJustified(r, m);
    } else if m.Gathers? {
      GatheringKeepsJustified(r, m);
    } else if Commits(m) {
      FinalizerKeepsJustified(r, m);
    } else {
      OtherKeepsJustified(r, m);
    }
  }

  /** The document holds the submission after a move exactly if no metadata without it are put over it. */
  lemma SubmissionStaysExactly(r: Race, m: Move)
    requires AllJustified(r) && SubmissionStays(r) && Enabled(r, m)
    ensures SubmissionStays(After(r, m)) <==> !Erases(r, m)
  {
    assert m.Writes? ==> Justified(r.request, r.said.Some?, r.flight[m.pid]);
  }

  /** The document has lost the submission, nobody will put it back, and no finalizer has it. */
  ghost predicate Forgotten(r: Race) {
    && r.request.submission.None?
    && (forall pid :: pid in r.drafts && r.drafts[pid].Attaching? ==> r.drafts[pid].held.None?)
    && forall pid :: pid in r.flight ==> r.flight[pid].Spawned?
  }

  predicate LeaderIsSilent(r: Race, m: Move) {
    !m.Leader? && !m.Direct?
  }

  lemma StaysForgotten(r: Race, m: Move)
    requires Forgotten(r) && Enabled(r, m) && LeaderIsSilent(r, m)
    ensures Forgotten(After(r, m)) && (DecisionLogged(After(r, m).log) <==> DecisionLogged(r.log))
  {
    DecisionsAreWritten(r, m);
  }

  /** Then nothing is decided unless the leader posts again, or somebody calls the commit from outside. */
  lemma {:induction false} ErasedSubmissionIsNeverDecided(r: Race, moves: seq<Move>)
    requires Forgotten(r) && Throughout(r, moves, LeaderIsSilent)
    ensures DecisionLogged(Play(r, moves).log) <==> DecisionLogged(r.log)
    decreases moves
  {
    if moves != [] {
      StaysForgotten(r, moves[0]);
      ErasedSubmissionIsNeverDecided(After(r, moves[0]), moves[1..]);
    }
  }

  lemma PostIsAttended(r: Race, m: Move)
    requires Enabled(r, m) && (m.Leader? || m.Verifier? || m.ReadsForDone? || m.Completes? || m.Direct?)
    ensures Attended(After(r, m))
  {
    var r' := After(r, m);
    assert m.pid in r'.flight || (m.pid in r'.drafts && Answering(r'.drafts[m.pid]));
  }

  lemma CommitKeepsAttended(r: Race, m: Move)
    requires Attended(r) && Enabled(r, m) && Commits(m)
    ensures Attended(After(r, m))
  {
    var r' := After(r, m);
    assert m.pid in r'.flight || !Ready(r'.request);
  }

  lemma AsideKeepsAttended(r: Race, m: Move)
    requires Attended(r) && SubmissionStays(r) && Enabled(r, m) && (m.Node? || m.ReadsForAttach? || m.Attaches? || m.Waits?)
    ensures Attended(After(r, m))
  {
    var r' := After(r, m);
    if Ready(r'.request) && r.flight == map[] {
      var pid :| pid in r.drafts && Answering(r.drafts[pid]);
      assert pid in r'.drafts && r'.drafts[pid] == r.drafts[pid];
    }
  }

  lemma MoveKeepsAttended(r: Race, m: Move)
    requires Attended(r) && SubmissionStays(r) && Enabled(r, m) && Undisturbed(r, m)
    ensures Attended(After(r, m))
  {
    if Commits(m) {
      CommitKeepsAttended(r, m);
    } else if m.Node? || m.ReadsForAttach? || m.Attaches? || m.Waits? {
      AsideKeepsAttended(r, m);
    } else {
      PostIsAttended(r, m);
    }
  }

  lemma {:induction false} RunKeepsAttended(r: Race, moves: seq<Move>)
    requires AllJustified(r) && SubmissionStays(r) && Attended(r) && Throughout(r, moves, Undisturbed)
    ensures AllJustified(Play(r, moves)) && SubmissionStays(Play(r, moves)) && Attended(Play(r, moves))
    ensures Play(r, moves).request.verifiers == r.request.verifiers
    decreases moves
  {
    if moves != [] {
      MoveKeepsJustified(r, moves[0]);
      SubmissionStaysExactly(r, moves[0]);
      MoveKeepsAttended(r, moves[0]);
      RunKeepsAttended(After(r, moves[0]), moves[1..]);
    }
  }

  /**
   * Once every post, finalizer and commit is done, if nobody called the commit from outside
   * and no stale metadata were put over the submission: a decision was written exactly if
   * the leader and every verifier have posted and no poll failed the request before a commit
   * had passed its status test.
   */
  lemma QuietRiskDecisionExactly(r: Race, moves: seq<Move>)
    requires Fresh(r) && Throughout(r, moves, Undisturbed)
    requires Play(r, moves).flight == map[] && Play(r, moves).drafts == map[]
    ensures DecisionLogged(Play(r, moves).log) <==>
              Play(r, moves).said.Some? && AllIn(Play(r, moves).request) && !Sometime(r, moves, Stops)
  {
    assert !DecisionLogged(r.log);
    var end := Play(r, moves);
    RunKeepsAttended(r, moves);
    RunStaysOpenExactly(r, moves, Undisturbed);
    assert InHand(end) <==> DecisionLogged(end.log);
  }

  // --- One claim is enough -----------------------------------------------------------

  predicate Anything(r: Race, m: Move) {
    true
  }

  lemma {:induction false} PlayOnwards(r: Race, first: seq<Move>, rest: seq<Move>)
    requires Throughout(r, first, Anything) && Throughout(Play(r, first), rest, Anything)
    ensures Throughout(r, first + rest, Anything) && Play(r, first + rest) == Play(Play(r, first), rest)
    decreases first
  {
    if first == [] {
      assert first + rest == rest;
    } else {
      PlayOnwards(After(r, first[0]), first[1..], rest);
      assert (first + rest)[1..] == first[1..] + rest;
    }
  }

  lemma MoveFirst(r: Race, m: Move, rest: seq<Move>)
    requires Enabled(r, m) && Throughout(After(r, m), rest, Anything)
    ensures Throughout(r, [m] + rest, Anything) && Play(r, [m] + rest) == Play(After(r, m), rest)
  {
    assert ([m] + rest)[1..] == rest;
  }

  /** The claimer's entry, the only one on record. */
  function Lone(v: string, status: EntryStatus, at: real): Entries {
    map[v := Entry(status, Some(at))]
  }

  lemma LoneClaimIsWritten(r: Race, v: string)
    requires r.calls == map[0 := Claiming(v, r.now, map[])]
    ensures Enabled(r, Node(NodeStep.Claims(0)))
    ensures AfterNode(r, NodeStep.Claims(0)) == r.(request := r.request.(nodes := Lone(v, Claimed, r.now)), calls := map[])
  {
    assert AfterNode(r, NodeStep.Claims(0)).calls == map[];
  }

  lemma LoneClaims(r: Race, v: string) returns (moves: seq<Move>)
    requires r.calls == map[] && r.request.nodes == map[]
    ensures Throughout(r, moves, Anything)
    ensures Play(r, moves) == r.(request := r.request.(nodes := Lone(v, Claimed, r.now)), now := r.now + 301.0)
  {
    var reading := r.(calls := map[0 := Claiming(v, r.now, map[])]);
    assert After(r, Node(ReadsForClaim(v, r.now, 0))) == reading;
    var claimed := r.(request := r.request.(nodes := Lone(v, Claimed, r.now)));
    LoneClaimIsWritten(reading, v);
    MoveFirst(claimed, Move.Waits(r.now + 301.0), []);
    MoveFirst(reading, Node(NodeStep.Claims(0)), [Move.Waits(r.now + 301.0)]);
    MoveFirst(r, Node(ReadsForClaim(v, r.now, 0)), [Node(NodeStep.Claims(0))] + [Move.Waits(r.now + 301.0)]);
    moves := [Node(ReadsForClaim(v, r.now, 0))] + ([Node(NodeStep.Claims(0))] + [Move.Waits(r.now + 301.0)]);
  }

  lemma LoneIsListed(r: Race, v: string)
    requires r.calls == map[] && v in Members(r.request) && r.request.status == RiskQueued
    ensures Enabled(r, Node(Lists(v, r.now, 0))) && AfterNode(r, Lists(v, r.now, 0)) == r.(calls := map[0 := Listed(v, r.now)])
  {
    assert AfterNode(r, Lists(v, r.now, 0)).calls == map[0 := Listed(v, r.now)];
  }

  lemma LoneIsLate(r: Race, v: string, at: real)
    requires r.calls == map[0 := Listed(v, r.now)] && r.request.nodes == Lone(v, Claimed, at) && r.now == at + 301.0
    ensures Enabled(r, Node(NodeStep.Checks(0))) && AfterNode(r, NodeStep.Checks(0)) == r.(calls := map[0 := Late(v)])
  {
    assert AfterNode(r, NodeStep.Checks(0)).calls == map[0 := Late(v)];
  }

  lemma LoneIsRead(r: Race, v: string)
    requires r.calls == map[0 := Late(v)]
    ensures Enabled(r, Node(ReadsForMark(0))) && AfterNode(r, ReadsForMark(0)) == r.(calls := map[0 := Marking(v, r.request.nodes)])
  {
    assert AfterNode(r, ReadsForMark(0)).calls == map[0 := Marking(v, r.request.nodes)];
  }

  lemma LoneIsMarked(r: Race, v: string, at: real)
    requires r.calls == map[0 := Marking(v, Lone(v, Claimed, at))]
    ensures Enabled(r, Node(Marks(0)))
    ensures AfterNode(r, Marks(0)) == r.(request := r.request.(nodes := Lone(v, TimedOut, at)), calls := map[0 := Marked])
  {
    assert AfterNode(r, Marks(0)).request.nodes == Lone(v, TimedOut, at);
    assert AfterNode(r, Marks(0)).calls == map[0 := Marked];
  }

  lemma LoneIsSeen(r: Race, v: string, at: real)
    requires r.calls == map[0 := Marked] && r.request.nodes == Lone(v, TimedOut, at) && r.request.status == RiskQueued
    ensures Enabled(r, Node(Rechecks(0))) && AfterNode(r, Rechecks(0)) == r.(calls := map[0 := Doomed])
  {
    assert AfterNode(r, Rechecks(0)).calls == map[0 := Doomed];
  }

  lemma LoneIsFatal(r: Race)
    requires r.calls == map[0 := Doomed]
    ensures Enabled(r, Node(Fails(0)))
    ensures AfterNode(r, Fails(0)) == r.(request := r.request.(status := RiskFailed), calls := map[], log := r.log + [TimesOut])
  {
    assert AfterNode(r, Fails(0)).calls == map[];
  }

  lemma LonePolls(r: Race, v: string, at: real) returns (moves: seq<Move>)
    requires r.calls == map[] && r.request.nodes == Lone(v, Claimed, at) && r.now == at + 301.0
    requires v in Members(r.request) && r.request.status == RiskQueued
    ensures Throughout(r, moves, Anything)
    ensures Play(r, moves) ==
            r.(request := r.request.(nodes := Lone(v, TimedOut, at), status := RiskFailed), log := r.log + [TimesOut])
  {
    LoneIsListed(r, v);
    LoneIsLate(r.(calls := map[0 := Listed(v, r.now)]), v, at);
    var late := r.(calls := map[0 := Late(v)]);
    LoneIsRead(late, v);
    LoneIsMarked(late.(calls := map[0 := Marking(v, r.request.nodes)]), v, at);
    var marked := r.(request := r.request.(nodes := Lone(v, TimedOut, at)), calls := map[0 := Marked]);
    LoneIsSeen(marked, v, at);
    LoneIsFatal(marked.(calls := map[0 := Doomed]));
    moves := [Node(Rechecks(0))] + ([Node(Fails(0))] + []);
    MoveFirst(marked.(calls := map[0 := Doomed]), Node(Fails(0)), []);
    MoveFirst(marked, Node(Rechecks(0)), [Node(Fails(0))] + []);
    MoveFirst(late.(calls := map[0 := Marking(v, r.request.nodes)]), Node(Marks(0)), moves);
    moves := [Node(Marks(0))] + moves;
    MoveFirst(late, Node(ReadsForMark(0)), moves);
    moves := [Node(ReadsForMark(0))] + moves;
    MoveFirst(r.(calls := map[0 := Listed(v, r.now)]), Node(NodeStep.Checks(0)), moves);
    moves := [Node(NodeStep.Checks(0))] + moves;
    MoveFirst(r, Node(Lists(v, r.now, 0)), moves);
    moves := [Node(Lists(v, r.now, 0))] + moves;
  }

  /**
   * Whatever the request: entries exist only for nodes that have claimed, so one member that
   * claims and polls again after its claim has run out fails the whole request, and then
   * nobody decides it any more.
   */
  lemma LoneClaimerFailsRequest(r: Race, v: string) returns (moves: seq<Move>)
    requires Fresh(r) && v in Members(r.request)
    ensures Throughout(r, moves, Anything) && Blocked(Play(r, moves)) && Play(r, moves).log == [TimesOut]
    ensures forall more, ok :: Throughout(Play(r, moves), more, ok) ==> !DecisionLogged(Play(Play(r, moves), more).log)
  {
    var claims := LoneClaims(r, v);
    var mid := Play(r, claims);
    var polls := LonePolls(mid, v, r.now);
    PlayOnwards(r, claims, polls);
    moves := claims + polls;
    var end := Play(r, moves);
    assert end.log == [TimesOut] && end.flight == map[];
    assert Blocked(end);
    forall more, ok | Throughout(end, more, ok) ensures !DecisionLogged(Play(end, more).log) {
      StoppedIsNeverDecided(end, more, ok);
    }
  }

  // --- Commits on their own ----------------------------------------------------------

  lemma {:induction false} RewritingFirst(rows: seq<RiskRow>, verdicts: seq<Verdict>)
    requires verdicts != []
    ensures Rewritten(rows, verdicts) == Rewritten(Stored(rows, Settled(verdicts[0])), verdicts[1..])
  {
    var n := |verdicts| - 1;
    if n > 0 {
      RewritingFirst(rows, verdicts[..n]);
      assert verdicts[..n][1..] == verdicts[1..][..n - 1];
    } else {
      assert Rewritten(rows, verdicts[..0]) == rows;
    }
  }

  /** The request when a commit ends that passed its test with `kept` and has rewritten the first `next` verdicts. */
  function Ended(t: RiskRequest, p: Proposal, kept: Option<LeaderSubmission>, next: nat): RiskRequest
    requires next <= |t.verifiers|
  {
    var d := DecisionOf(t, p);
    t.(status := StatusOf(d), decision := Some(d), certificate := Some(d), submission := kept,
       rows := Rewritten(t.rows, VerdictsOf(t.verifiers, p.provided)[next..]))
  }

  lemma RewriteKeepsEnd(t: RiskRequest, p: Proposal, kept: Option<LeaderSubmission>, next: nat)
    requires next < |t.verifiers|
    ensures Ended(t.(rows := Stored(t.rows, Settled(Counted(t, p, next)))), p, kept, next + 1) == Ended(t, p, kept, next)
  {
    var verdicts := VerdictsOf(t.verifiers, p.provided);
    assert verdicts[next..][1..] == verdicts[next + 1..];
    RewritingFirst(t.rows, verdicts[next..]);
  }

  /** The race when the commit `pid` has ended. */
  function Finished(r: Race, pid: nat): Race
    requires pid in r.flight && r.flight[pid].Rewriting? && r.flight[pid].next <= |r.request.verifiers|
  {
    var c := r.flight[pid];
    r.(request := Ended(r.request, c.passed, c.kept, c.next), flight := r.flight - {pid},
       log := r.log + [Decides(DecisionOf(r.request, c.passed))])
  }

  lemma LastVerdictEnds(r: Race, pid: nat)
    requires pid in r.flight && r.flight[pid].Rewriting? && r.flight[pid].next == |r.request.verifiers|
    ensures Throughout(r, [Certifies(pid), Writes(pid)], Anything)
    ensures Play(r, [Certifies(pid), Writes(pid)]) == Finished(r, pid)
  {
    var c, d := r.flight[pid], DecisionOf(r.request, r.flight[pid].passed);
    var certified := r.(request := r.request.(certificate := Some(d)), flight := r.flight[pid := Certified(c.passed, c.kept)]);
    assert After(r, Certifies(pid)) == certified;
    assert certified.flight - {pid} == r.flight - {pid};
    assert VerdictsOf(r.request.verifiers, c.passed.provided)[c.next..] == [];
    assert After(certified, Writes(pid)) == Finished(r, pid);
    MoveFirst(certified, Writes(pid), []);
    MoveFirst(r, Certifies(pid), [Writes(pid)]);
    assert [Certifies(pid)] + [Writes(pid)] == [Certifies(pid), Writes(pid)];
  }

  lemma OneVerdictLess(r: Race, pid: nat)
    requires pid in r.flight && r.flight[pid].Rewriting? && r.flight[pid].next < |r.request.verifiers|
    ensures
      var c := r.flight[pid];
      && Enabled(r, Rewrites(pid))
      && After(r, Rewrites(pid)).request == r.request.(rows := Stored(r.request.rows, Settled(Counted(r.request, c.passed, c.next))))
      && pid in After(r, Rewrites(pid)).flight && After(r, Rewrites(pid)).flight[pid] == c.(next := c.next + 1)
      && Finished(After(r, Rewrites(pid)), pid) == Finished(r, pid)
  {
    var c := r.flight[pid];
    var after := After(r, Rewrites(pid));
    RewriteKeepsEnd(r.request, c.passed, c.kept, c.next);
    assert after.flight - {pid} == r.flight - {pid};
  }

  /** A commit that has passed its status test can always run to its end, whatever was decided meanwhile. */
  lemma {:induction false} CommitRunsOut(r: Race, pid: nat) returns (moves: seq<Move>)
    requires pid in r.flight && r.flight[pid].Rewriting? && r.flight[pid].next <= |r.request.verifiers|
    ensures Throughout(r, moves, Anything)
    ensures Play(r, moves) == Finished(r, pid)
    decreases |r.request.verifiers| - r.flight[pid].next
  {
    if r.flight[pid].next < |r.request.verifiers| {
      OneVerdictLess(r, pid);
      var rest := CommitRunsOut(After(r, Rewrites(pid)), pid);
      MoveFirst(r, Rewrites(pid), rest);
      moves := [Rewrites(pid)] + rest;
    } else {
      LastVerdictEnds(r, pid);
      moves := [Certifies(pid), Writes(pid)];
    }
  }

  /** A finalizer that nobody disturbs does what the one-step finalizer does. */
  lemma UndisturbedFinalizerIsAtomic(r: Race, pid: nat) returns (moves: seq<Move>)
    requires pid in r.flight && r.flight[pid].Spawned?
    ensures Throughout(r, moves, Anything)
    ensures Play(r, moves).request == FinalizeRisk(r.request) && Play(r, moves).flight == r.flight - {pid}
    ensures Play(r, moves).log == r.log + if Ready(r.request) then [Decides(FinalizeRisk(r.request).decision.value)] else []
  {
    var t, begun := r.request, After(r, Begins(pid));
    var rest := [];
    if t.status == RiskQueued && t.submission.Some? {
      var gathered := After(begun, Gathers(pid));
      if AllIn(t) {
        var checked := After(gathered, Move.Checks(pid));
        if Committable(t) {
          rest := CommitRunsOut(checked, pid);
          assert Ended(t, ProposalOf(t, t.submission.value), t.submission, 0) == FinalizeRisk(t);
        }
        MoveFirst(gathered, Move.Checks(pid), rest);
        rest := [Move.Checks(pid)] + rest;
      }
      MoveFirst(begun, Gathers(pid), rest);
      rest := [Gathers(pid)] + rest;
    }
    MoveFirst(r, Begins(pid), rest);
    moves := [Begins(pid)] + rest;
  }

  /** So does a verifier's post: its row is stored, its entry completed, and a finalizer started. */
  lemma UndisturbedPostIsAtomic(r: Race, row: RiskRow, pid: nat)
    requires pid !in r.drafts && pid !in r.flight && row.verifier in r.request.verifiers
    ensures
      var moves := [Move.Verifier(row, pid)] + ([ReadsForDone(pid)] + [Completes(pid)]);
      && Throughout(r, moves, Anything)
      && Play(r, moves) == r.(request := Posted(r.request, row), flight := r.flight[pid := Spawned])
  {
    var stored := After(r, Move.Verifier(row, pid));
    var read := After(stored, ReadsForDone(pid));
    var done := After(read, Completes(pid));
    assert read.drafts - {pid} == r.drafts;
    MoveFirst(read, Completes(pid), []);
    MoveFirst(stored, ReadsForDone(pid), [Completes(pid)]);
    MoveFirst(r, Move.Verifier(row, pid), [ReadsForDone(pid)] + [Completes(pid)]);
    assert [Completes(pid)] + [] == [Completes(pid)];
  }

  /** Two commits that have both passed the status test are both written, in the order in which they end. */
  lemma BothCommitsRunOut(r: Race, one: nat, two: nat) returns (moves: seq<Move>)
    requires one in r.flight && r.flight[one].Rewriting? && r.flight[one].next == 0
    requires two in r.flight && r.flight[two].Rewriting? && r.flight[two].next == 0 && one != two
    ensures Throughout(r, moves, Anything)
    ensures
      var first := DecisionOf(r.request, r.flight[one].passed);
      var last := DecisionOf(r.request, r.flight[two].passed);
      && Play(r, moves).log == r.log + [Decides(first), Decides(last)] && Play(r, moves).request.status == StatusOf(last)
  {
    var first := CommitRunsOut(r, one);
    var mid := Play(r, first);
    assert mid == Finished(r, one) && mid.flight[two] == r.flight[two];
    var second := CommitRunsOut(mid, two);
    PlayOnwards(r, first, second);
    moves := first + second;
  }

  /**
   * The status test does not make a commit happen once: while a finalizer is on its way to
   * commit, anyone who calls the commit with any proposal can have it written as well, last.
   * Without verdicts such a proposal always rejects.
   */
  lemma DirectCommitOverrides(r: Race, one: nat, two: nat, q: Proposal) returns (moves: seq<Move>)
    requires Committable(r.request) && one in r.flight && r.flight[one].Proposed? && two !in r.flight
    ensures Throughout(r, moves, Anything)
    ensures Play(r, moves).log == r.log + [Decides(DecisionOf(r.request, r.flight[one].proposal)), Decides(DecisionOf(r.request, q))]
    ensures Play(r, moves).request.status == StatusOf(DecisionOf(r.request, q))
    ensures q.provided == [] ==> Play(r, moves).request.status == RiskRejected
  {
    var called := After(r, Direct(q, two));
    var passed := After(called, Move.Checks(one));
    var both := After(passed, Move.Checks(two));
    var rest := BothCommitsRunOut(both, one, two);
    MoveFirst(passed, Move.Checks(two), rest);
    MoveFirst(called, Move.Checks(one), [Move.Checks(two)] + rest);
    MoveFirst(r, Direct(q, two), [Move.Checks(one)] + ([Move.Checks(two)] + rest));
    moves := [Direct(q, two)] + ([Move.Checks(one)] + ([Move.Checks(two)] + rest));
    assert q.provided == [] ==> Confirming(r.request.verifiers, q.provided) == {};
  }
}
