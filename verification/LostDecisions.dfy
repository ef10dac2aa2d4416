/** Exactly when a request that every node has answered is decided, and that the order of arrival never matters. */
module LostDecisions {
  import opened Prelude
  import opened HashTally
  import opened TextRequests
  import opened QuorumRuns
  import opened FinalizerRace
  import opened RaceOutcomes

  // --- Over all interleavings --------------------------------------------------------

  /** A finalizer that has got past its first read reads verdicts that are enough to decide. */
  predicate ReadsEnough(s: Race, m: Move) {
    m.Reads? && Enabled(s, m) && Decide(|s.request.verifiers|, s.flight[m.pid].result.hash, Hashes(s.request.rows)) != Undecided
  }

  predicate Decisive(verifierCount: nat, p: Phase) {
    p.HasRows? && Decide(verifierCount, p.seen.hash, Hashes(p.rows)) != Undecided
  }

  ghost predicate SomeDecisive(verifierCount: nat, flight: map<nat, Phase>) {
    exists p :: p in flight && Decisive(verifierCount, flight[p])
  }

  ghost predicate DecisionLogged(log: seq<Outcome>) {
    exists o :: o in log && o != FailedByTimeout
  }

  /** A decision has been written, or some finalizer is sure to write one. */
  ghost predicate InHand(s: Race) {
    DecisionLogged(s.log) || SomeDecisive(|s.request.verifiers|, s.flight)
  }

  lemma SameDecisive(n: nat, one: map<nat, Phase>, other: map<nat, Phase>)
    requires forall p :: p in one && Decisive(n, one[p]) <==> p in other && Decisive(n, other[p])
    ensures SomeDecisive(n, one) <==> SomeDecisive(n, other)
  {
    if SomeDecisive(n, one) {
      var p :| p in one && Decisive(n, one[p]);
      assert p in other && Decisive(n, other[p]);
    }
    if SomeDecisive(n, other) {
      var p :| p in other && Decisive(n, other[p]);
      assert p in one && Decisive(n, one[p]);
    }
  }

  lemma DecisiveWithout(n: nat, flight: map<nat, Phase>, pid: nat)
    requires pid in flight
    ensures SomeDecisive(n, flight) <==> SomeDecisive(n, flight - {pid}) || Decisive(n, flight[pid])
  {
    if SomeDecisive(n, flight) {
      var p :| p in flight && Decisive(n, flight[p]);
      assert p != pid ==> p in flight - {pid};
    }
    if SomeDecisive(n, flight - {pid}) {
      var p :| p in flight - {pid} && Decisive(n, (flight - {pid})[p]);
      assert p in flight && Decisive(n, flight[p]);
    }
  }

  lemma DecisiveWith(n: nat, flight: map<nat, Phase>, pid: nat, phase: Phase)
    requires pid in flight && !Decisive(n, flight[pid])
    ensures SomeDecisive(n, flight[pid := phase]) <==> SomeDecisive(n, flight) || Decisive(n, phase)
  {
    var more := flight[pid := phase];
    if SomeDecisive(n, flight) {
      var p :| p in flight && Decisive(n, flight[p]);
      assert p in more && more[p] == flight[p];
    }
    if SomeDecisive(n, more) {
      var p :| p in more && Decisive(n, more[p]);
      assert p != pid ==> p in flight && flight[p] == more[p];
    }
    assert pid in more && more[pid] == phase;
  }

  lemma DecisionLoggedAppend(log: seq<Outcome>, added: seq<Outcome>)
    ensures DecisionLogged(log + added) <==> DecisionLogged(log) || DecisionLogged(added)
  {
    assert forall o :: o in log + added <==> o in log || o in added;
    if DecisionLogged(log) {
      var o :| o in log && o != FailedByTimeout;
      assert o in log + added;
    }
    if DecisionLogged(added) {
      var o :| o in added && o != FailedByTimeout;
      assert o in log + added;
    }
  }

  lemma WriteKeepsInHand(s: Race, pid: nat)
    requires Enabled(s, Writes(pid))
    ensures InHand(After(s, Writes(pid))) <==> InHand(s)
  {
    var added := OutcomeOf(s.request, s.flight[pid]);
    DecisionLoggedAppend(s.log, added);
    DecisiveWithout(|s.request.verifiers|, s.flight, pid);
    assert added != [] ==> added[0] in added;
    assert After(s, Writes(pid)).request.verifiers == s.request.verifiers;
  }

  lemma ReadInHandExactly(s: Race, pid: nat)
    requires Enabled(s, Reads(pid))
    ensures InHand(After(s, Reads(pid))) <==> InHand(s) || ReadsEnough(s, Reads(pid))
  {
    DecisiveWith(|s.request.verifiers|, s.flight, pid, After(s, Reads(pid)).flight[pid]);
  }

  lemma OtherKeepsLog(s: Race, m: Move)
    requires Enabled(s, m) && !m.Writes?
    ensures DecisionLogged(After(s, m).log) == DecisionLogged(s.log)
  {
    StatusChanges(s, m);
    DecisionLoggedAppend(s.log, Written(s, m));
  }

  lemma SubmissionKeepsDecisive(s: Race, m: Move, n: nat)
    requires Enabled(s, m) && Submits(m)
    ensures forall p :: p in s.flight && Decisive(n, s.flight[p]) <==> p in After(s, m).flight && Decisive(n, After(s, m).flight[p])
  {
    assert After(s, m).flight == s.flight[m.pid := Spawned];
  }

  lemma OtherKeepsDecisive(s: Race, m: Move, n: nat)
    requires Enabled(s, m) && !m.Writes? && !m.Reads?
    ensures forall p :: p in s.flight && Decisive(n, s.flight[p]) <==> p in After(s, m).flight && Decisive(n, After(s, m).flight[p])
  {
    if Submits(m) {
      SubmissionKeepsDecisive(s, m, n);
    } else if !m.Begins? {
      assert After(s, m).flight == s.flight;
    }
  }

  lemma OtherKeepsInHand(s: Race, m: Move)
    requires Enabled(s, m) && !m.Writes? && !m.Reads?
    ensures InHand(After(s, m)) <==> InHand(s)
  {
    OtherKeepsLog(s, m);
    MoveKeepsQuorum(s, m);
    OtherKeepsDecisive(s, m, |s.request.verifiers|);
    SameDecisive(|s.request.verifiers|, s.flight, After(s, m).flight);
  }

  lemma MoveInHandExactly(s: Race, m: Move)
    requires Enabled(s, m)
    ensures InHand(After(s, m)) <==> InHand(s) || ReadsEnough(s, m)
  {
    if m.Writes? {
      WriteKeepsInHand(s, m.pid);
    } else if m.Reads? {
      ReadInHandExactly(s, m.pid);
    } else {
      OtherKeepsInHand(s, m);
    }
  }

  lemma {:induction false} RunInHandExactly(s: Race, moves: seq<Move>, ok: (Race, Move) -> bool)
    requires Throughout(s, moves, ok)
    ensures InHand(Play(s, moves)) <==> InHand(s) || Sometime(s, moves, ReadsEnough)
    decreases moves
  {
    if moves != [] {
      MoveInHandExactly(s, moves[0]);
      RunInHandExactly(After(s, moves[0]), moves[1..], ok);
    }
  }

  /**
   * Once all finalizers have finished, a decision has been written exactly if at some moment
   * one of them, past its first read, read verdicts that are enough to decide; whatever
   * resubmissions, timeouts, confirmations and lost results there were.
   */
  lemma DecisionWrittenExactly(s: Race, moves: seq<Move>, ok: (Race, Move) -> bool)
    requires Fresh(s) && Throughout(s, moves, ok) && Play(s, moves).flight == map[]
    ensures DecisionLogged(Play(s, moves).log) <==> Sometime(s, moves, ReadsEnough)
  {
    RunInHandExactly(s, moves, ok);
  }

  // --- While the leader's result stays in the document -------------------------------

  /** The leader's result is in the document if it was ever posted. */
  ghost predicate ResultStays(s: Race) {
    Reachable(s.request.status) && (s.said.Some? ==> s.request.result.Some?)
  }

  /** It stays there after a move exactly if the move does not put back metadata that were read before it came. */
  lemma ResultStaysExactly(s: Race, m: Move)
    requires ResultsFit(s) && ResultStays(s) && Enabled(s, m) && KeepsHash(s, m)
    ensures ResultStays(After(s, m)) <==> !Erases(s, m)
  {
    StatusChanges(s, m);
  }

  lemma MoveKeepsResult(s: Race, m: Move)
    requires Consistent(s) && ResultStays(s) && Enabled(s, m) && Undisturbed(s, m)
    ensures ResultStays(After(s, m)) && Consistent(After(s, m))
  {
    ResultStaysExactly(s, m);
    MoveKeepsConsistent(s, m);
  }

  /** This finalizer will still see every vote, or already has. */
  predicate SeesAll(t: TextRequest, p: Phase) {
    p.HasRows? ==> |p.rows| == |t.verifiers|
  }

  ghost predicate SomeSeesAll(s: Race) {
    exists p :: p in s.flight && SeesAll(s.request, s.flight[p])
  }

  predicate AwaitsDecision(s: Race) {
    Decidable(s.request) && |s.request.rows| == |s.request.verifiers|
  }

  /** While a fully voted request is undecided, some finalizer that sees every vote is under way. */
  ghost predicate DecisionPending(s: Race) {
    Opened(s) && s.request.status != PendingStoreKey && (AwaitsDecision(s) ==> SomeSeesAll(s))
  }

  /** A finalizer that saw every vote decides. */
  lemma SeeingAllDecides(s: Race, pid: nat)
    requires Consistent(s) && Enabled(s, Writes(pid)) && SeesAll(s.request, s.flight[pid])
    ensures After(s, Writes(pid)).request.status != Queued
  {
    RowsAreBounded(s.request);
    assert Snapshot(AsPosted(s), s.flight[pid]);
    assert |Hashes(s.flight[pid].rows)| == |s.request.verifiers|;
  }

  lemma SeerStays(s: Race, m: Move, p: nat)
    requires Enabled(s, m) && !Submits(m) && !(m.Writes? && m.pid == p) && AwaitsDecision(s)
    requires p in s.flight && SeesAll(s.request, s.flight[p])
    ensures p in After(s, m).flight && SeesAll(After(s, m).request, After(s, m).flight[p])
  {
    OthersKeepVotes(s, m);
  }

  lemma OthersKeepSeeing(s: Race, m: Move)
    requires Consistent(s) && Enabled(s, m) && SomeSeesAll(s) && !Submits(m)
    requires AwaitsDecision(s) && After(s, m).request.status == Queued
    ensures SomeSeesAll(After(s, m))
  {
    var p :| p in s.flight && SeesAll(s.request, s.flight[p]);
    if m.Writes? && m.pid == p {
      SeeingAllDecides(s, p);
    }
    SeerStays(s, m, p);
  }

  /** Without disturbance a request comes to await a decision only by a submission. */
  lemma AwaitsSinceSubmission(s: Race, m: Move)
    requires Consistent(s) && ResultStays(s) && Enabled(s, m) && Undisturbed(s, m) && !Submits(m)
    requires Opened(s) && s.request.status != PendingStoreKey && AwaitsDecision(After(s, m))
    ensures AwaitsDecision(s)
  {
    OthersKeepVotes(s, m);
    StatusChanges(s, m);
    MoveKeepsQuorum(s, m);
    MoveKeepsConsistent(s, m);
  }

  lemma StaysOpened(s: Race, m: Move)
    requires Opened(s) && Enabled(s, m)
    ensures Opened(After(s, m)) && !m.Opens?
  {
  }

  lemma StaysUnopened(s: Race, m: Move)
    requires !Opened(s) && Enabled(s, m) && !m.Opens?
    ensures !Opened(After(s, m))
  {
    var pid :| pid in s.drafts && s.drafts[pid].Opening?;
    assert pid in After(s, m).drafts && After(s, m).drafts[pid] == s.drafts[pid];
  }

  lemma MoveKeepsDecisionPending(s: Race, m: Move)
    requires Consistent(s) && ResultStays(s) && DecisionPending(s) && Enabled(s, m) && Undisturbed(s, m)
    ensures DecisionPending(After(s, m))
  {
    var s' := After(s, m);
    StatusChanges(s, m);
    StaysOpened(s, m);
    if AwaitsDecision(s') {
      if Submits(m) {
        assert m.pid in s'.flight && SeesAll(s'.request, s'.flight[m.pid]);
      } else {
        AwaitsSinceSubmission(s, m);
        OthersKeepSeeing(s, m);
      }
    }
  }

  lemma {:induction false} PlayKeepsDecisionPending(s: Race, moves: seq<Move>)
    requires Consistent(s) && ResultStays(s) && DecisionPending(s) && Throughout(s, moves, Undisturbed)
    ensures DecisionPending(Play(s, moves))
    decreases moves
  {
    if moves != [] {
      MoveKeepsDecisionPending(s, moves[0]);
      MoveKeepsResult(s, moves[0]);
      PlayKeepsDecisionPending(After(s, moves[0]), moves[1..]);
    }
  }

  // --- The prompt key ----------------------------------------------------------------

  /** The creation is done, the prompt key has been confirmed, or never was awaited, and some finalizer is under way. */
  ghost predicate Watching(s: Race) {
    Opened(s) && s.request.status != PendingStoreKey && s.flight != map[]
  }

  /** At some moment of the run a finalizer is under way after the creation and the confirmation of the key. */
  ghost predicate Watched(s: Race, moves: seq<Move>)
    decreases moves
  {
    Watching(s) || (moves != [] && Enabled(s, moves[0]) && Watched(After(s, moves[0]), moves[1..]))
  }

  /** No finalizer gets past its first read while the key is awaited. */
  ghost predicate WaitsForKey(s: Race) {
    s.request.status == PendingStoreKey ==> forall p :: p in s.flight ==> s.flight[p].Spawned?
  }

  lemma PendingIsNeverRegained(s: Race, m: Move)
    requires Opened(s) && Enabled(s, m) && After(s, m).request.status == PendingStoreKey
    ensures s.request.status == PendingStoreKey
  {
    StatusChanges(s, m);
  }

  /** The end of the creation disturbs nothing only if the leader has not posted, so nothing has been read. */
  lemma OpensInSilence(s: Race, m: Move)
    requires Consistent(s) && ResultStays(s) && Enabled(s, m) && Undisturbed(s, m) && m.Opens?
    ensures s.said.None? && forall p :: p in s.flight ==> s.flight[p].Spawned?
  {
    if s.said.None? {
      SilenceDecidesNothing(s);
    }
  }

  lemma MoveKeepsWaiting(s: Race, m: Move)
    requires Consistent(s) && ResultStays(s) && WaitsForKey(s) && Enabled(s, m) && Undisturbed(s, m)
    ensures WaitsForKey(After(s, m))
  {
    StatusChanges(s, m);
    if m.Opens? {
      OpensInSilence(s, m);
    }
  }

  ghost predicate WatchDecides(s: Race) {
    WaitsForKey(s) && (Watching(s) ==> DecisionPending(s))
  }

  /** What makes a request watched is a submission, the confirmation of its key or the end of its creation. */
  lemma WatchBegins(s: Race, m: Move)
    requires Consistent(s) && ResultStays(s) && Enabled(s, m) && Undisturbed(s, m)
    requires WaitsForKey(s) && !Watching(s) && Watching(After(s, m))
    ensures SomeSeesAll(After(s, m))
  {
    var s' := After(s, m);
    StatusChanges(s, m);
    if m.Opens? {
      OpensInSilence(s, m);
    } else if !Opened(s) {
      StaysUnopened(s, m);
    }
    var p :| p in s'.flight;
    assert s'.flight[p].Spawned?;
  }

  lemma MoveKeepsWatchDecides(s: Race, m: Move)
    requires Consistent(s) && ResultStays(s) && WatchDecides(s) && Enabled(s, m) && Undisturbed(s, m)
    ensures WatchDecides(After(s, m))
  {
    MoveKeepsWaiting(s, m);
    if Watching(s) {
      MoveKeepsDecisionPending(s, m);
    } else if Watching(After(s, m)) {
      WatchBegins(s, m);
    }
  }

  lemma {:induction false} WatchedRunsDecide(s: Race, moves: seq<Move>)
    requires Consistent(s) && ResultStays(s) && WatchDecides(s) && Throughout(s, moves, Undisturbed) && Watched(s, moves)
    ensures DecisionPending(Play(s, moves))
    decreases moves
  {
    if Watching(s) {
      PlayKeepsDecisionPending(s, moves);
    } else {
      MoveKeepsWatchDecides(s, moves[0]);
      MoveKeepsResult(s, moves[0]);
      WatchedRunsDecide(After(s, moves[0]), moves[1..]);
    }
  }

  /** If the end of the creation is still to come and will disturb nothing, the leader has not posted. */
  lemma {:induction false} SilentUntilOpened(s: Race, moves: seq<Move>)
    requires Consistent(s) && ResultStays(s) && Throughout(s, moves, Undisturbed)
    requires !Opened(s) && Opened(Play(s, moves))
    ensures s.said.None?
    decreases moves
  {
    if moves[0].Opens? {
      OpensInSilence(s, moves[0]);
    } else {
      StaysUnopened(s, moves[0]);
      MoveKeepsResult(s, moves[0]);
      SilentUntilOpened(After(s, moves[0]), moves[1..]);
    }
  }

  lemma UnwatchedMoveWritesNothing(s: Race, m: Move)
    requires WaitsForKey(s) && !Watching(s) && Enabled(s, m)
    requires !Opened(s) ==> forall p :: p in s.flight ==> s.flight[p].Spawned?
    ensures forall o :: o in After(s, m).log ==> o in s.log || o == FailedByTimeout
  {
    StatusChanges(s, m);
  }

  lemma {:induction false} UnwatchedRunsWriteNothing(s: Race, moves: seq<Move>)
    requires Consistent(s) && ResultStays(s) && WaitsForKey(s) && Throughout(s, moves, Undisturbed)
    requires !Watched(s, moves) && Opened(Play(s, moves))
    ensures forall o :: o in Play(s, moves).log ==> o in s.log || o == FailedByTimeout
    decreases moves
  {
    if moves != [] {
      if !Opened(s) {
        SilentUntilOpened(s, moves);
        SilenceDecidesNothing(s);
      }
      UnwatchedMoveWritesNothing(s, moves[0]);
      MoveKeepsWaiting(s, moves[0]);
      MoveKeepsResult(s, moves[0]);
      UnwatchedRunsWriteNothing(After(s, moves[0]), moves[1..]);
    }
  }

  // --- Exactly when a decision is lost -----------------------------------------------

  /** The hash that the last decision accepted, if it was an acceptance. */
  function Winner(log: seq<Outcome>): Option<Hash> {
    if log != [] && log[|log| - 1].AcceptedWith? then Some(log[|log| - 1].hash) else None
  }

  predicate Decided(t: TextRequest) {
    t.status == Accepted || t.status == Rejected
  }

  /** `h` is accepted exactly if two thirds hold it, and the request rejected exactly if no hash has two thirds. */
  ghost predicate DecidedByCount(s: Race) {
    && (forall h :: (s.request.status == Accepted && Winner(s.log) == Some(h)) <==> HeldByTwoThirds(AsPosted(s), h))
    && (s.request.status == Rejected <==> forall h :: !HeldByTwoThirds(AsPosted(s), h))
  }

  /** The last decision written is what all votes call for. */
  lemma LastDecisionIsFinalCount(s: Race)
    requires Consistent(s) && Shows(AsPosted(s), s.log) && s.log != [] && FailedByTimeout !in s.log
    ensures Decided(s.request) && DecidedByCount(s)
  {
    var t, last := AsPosted(s), s.log[|s.log| - 1];
    assert last in s.log && Backed(t, last);
    forall h ensures HeldByTwoThirds(t, h) <==> CurrentDecision(t).Accept? && CurrentDecision(t).hash == h {
      HeldIsAccepted(t, h);
    }
    if last.AcceptedWith? {
      assert HeldByTwoThirds(t, last.hash);
    }
  }

  lemma LastIsLogged(log: seq<Outcome>)
    ensures log == [] || log[|log| - 1] in log
  {
  }

  /** Every finalizer has finished, and so has the creation of the request. */
  ghost predicate Quiet(s: Race) {
    s.flight == map[] && Opened(s)
  }

  /** No confirmation and no end of the creation comes after an outcome. */
  predicate NeverReopens(s: Race, m: Move) {
    KeepsHash(s, m) && !Reopens(s, m)
  }

  lemma {:induction false} ShownRunsKeep(s: Race, moves: seq<Move>)
    requires Consistent(s) && Shows(AsPosted(s), s.log) && Throughout(s, moves, NeverReopens)
    ensures Consistent(Play(s, moves)) && Shows(AsPosted(Play(s, moves)), Play(s, moves).log)
    decreases moves
  {
    if moves != [] {
      MoveKeepsConsistent(s, moves[0]);
      MoveShowsExactly(s, moves[0]);
      ShownRunsKeep(After(s, moves[0]), moves[1..]);
    }
  }

  lemma {:induction false} UndisturbedRunsKeep(s: Race, moves: seq<Move>)
    requires Consistent(s) && ResultStays(s) && Throughout(s, moves, Undisturbed)
    ensures Throughout(s, moves, NeverReopens) && Throughout(s, moves, KeepsHash) && ResultStays(Play(s, moves))
    decreases moves
  {
    if moves != [] {
      MoveKeepsResult(s, moves[0]);
      UndisturbedRunsKeep(After(s, moves[0]), moves[1..]);
    }
  }

  lemma UndisturbedDecisionExactly(s: Race, moves: seq<Move>)
    requires Fresh(s) && WellFormed(s.request) && Throughout(s, moves, Undisturbed)
    requires AllSubmitted(AsPosted(Play(s, moves))) && Quiet(Play(s, moves))
    requires FailedByTimeout !in Play(s, moves).log
    ensures Decided(Play(s, moves).request) <==> Watched(s, moves) && Play(s, moves).said.value.hash != ""
  {
    UndisturbedRunsKeep(s, moves);
    ShownRunsKeep(s, moves);
    if Watched(s, moves) {
      WatchedRunsDecide(s, moves);
      PendingIsDecidedExactly(Play(s, moves));
    } else {
      UnwatchedRunsWriteNothing(s, moves);
      LastIsLogged(Play(s, moves).log);
    }
  }

  /** When all is quiet, nothing can be pending any more. */
  lemma PendingIsDecidedExactly(s: Race)
    requires Consistent(s) && Shows(AsPosted(s), s.log) && ResultStays(s) && DecisionPending(s)
    requires AllSubmitted(AsPosted(s)) && s.flight == map[] && FailedByTimeout !in s.log
    ensures Decided(s.request) <==> s.said.value.hash != ""
  {
    if s.log != [] {
      assert s.log[|s.log| - 1] in s.log;
      assert Backed(AsPosted(s), s.log[|s.log| - 1]);
    }
  }

  lemma DecisionShown(s: Race)
    requires Consistent(s) && Shows(AsPosted(s), s.log) && DecisionLogged(s.log) && FailedByTimeout !in s.log
    ensures Decided(s.request) && DecidedByCount(s)
  {
    LastDecisionIsFinalCount(s);
  }

  /**
   * Once everybody has submitted, every finalizer and the creation have finished and no
   * timeout was written: a decision was written exactly if some finalizer read verdicts that
   * are enough to decide. If no stale metadata were put over the leader's result and no stale
   * status over the decision, that is so exactly if the leader's hash is not empty and a
   * finalizer was under way at some moment after the creation and the confirmation of the
   * key. And accepting early never differs from counting at the end.
   */
  lemma QuietDecisionExactly(s: Race, moves: seq<Move>)
    requires Fresh(s) && WellFormed(s.request) && Throughout(s, moves, KeepsHash)
    requires AllSubmitted(AsPosted(Play(s, moves))) && Quiet(Play(s, moves))
    requires FailedByTimeout !in Play(s, moves).log
    ensures DecisionLogged(Play(s, moves).log) <==> Sometime(s, moves, ReadsEnough)
    ensures Throughout(s, moves, Undisturbed) ==>
              (Decided(Play(s, moves).request) <==> Watched(s, moves) && Play(s, moves).said.value.hash != "")
    ensures Throughout(s, moves, NeverReopens) ==>
              (Decided(Play(s, moves).request) <==> DecisionLogged(Play(s, moves).log))
              && (Decided(Play(s, moves).request) ==> DecidedByCount(Play(s, moves)))
  {
    DecisionWrittenExactly(s, moves, KeepsHash);
    if Throughout(s, moves, Undisturbed) {
      UndisturbedDecisionExactly(s, moves);
    }
    if Throughout(s, moves, NeverReopens) {
      ShownRunsKeep(s, moves);
      LastIsLogged(Play(s, moves).log);
      if DecisionLogged(Play(s, moves).log) {
        DecisionShown(Play(s, moves));
      }
    }
  }

  /** The document has lost the leader's result, nobody will put it back, and no finalizer has it. */
  ghost predicate Forgotten(s: Race) {
    && s.request.result.None? && (forall pid :: pid in s.drafts ==> Held(s.drafts[pid]).None?)
    && forall p :: p in s.flight ==> s.flight[p].Spawned?
  }

  predicate LeaderIsSilent(s: Race, m: Move) {
    !m.Leader?
  }

  lemma StaysForgotten(s: Race, m: Move)
    requires Forgotten(s) && Enabled(s, m) && !m.Leader?
    ensures Forgotten(After(s, m)) && (DecisionLogged(After(s, m).log) <==> DecisionLogged(s.log))
  {
    OtherKeepsLog(s, m);
  }

  /** Then nothing is decided any more unless the leader posts again, whatever verifiers and finalizers do. */
  lemma {:induction false} ErasedResultIsNeverDecided(s: Race, moves: seq<Move>)
    requires Forgotten(s) && Throughout(s, moves, LeaderIsSilent)
    ensures DecisionLogged(Play(s, moves).log) <==> DecisionLogged(s.log)
    decreases moves
  {
    if moves != [] {
      StaysForgotten(s, moves[0]);
      ErasedResultIsNeverDecided(After(s, moves[0]), moves[1..]);
    }
  }

  lemma {:induction false} OrderlyIsUndisturbed(s: Race, moves: seq<Move>)
    requires Throughout(s, moves, Orderly)
    ensures Throughout(s, moves, Undisturbed)
    decreases moves
  {
    if moves != [] {
      OrderlyIsUndisturbed(After(s, moves[0]), moves[1..]);
    }
  }

  /** Under the discipline that keeps timeouts apart, a timeout is the one other reason why such a request is not decided. */
  lemma OrderlyDecisionExactly(s: Race, moves: seq<Move>)
    requires Fresh(s) && WellFormed(s.request) && Throughout(s, moves, Orderly)
    requires AllSubmitted(AsPosted(Play(s, moves))) && Quiet(Play(s, moves))
    ensures Decided(Play(s, moves).request) <==>
              Watched(s, moves) && Play(s, moves).said.value.hash != "" && FailedByTimeout !in Play(s, moves).log
  {
    OrderlyIsUndisturbed(s, moves);
    if FailedByTimeout !in Play(s, moves).log {
      UndisturbedDecisionExactly(s, moves);
    } else {
      OrderlyRunsAreHarmless(s, moves);
      LastIsLogged(Play(s, moves).log);
    }
  }

  /** After the creation and once the key is confirmed, what makes a run watched is a finalizer under way or a later submission. */
  lemma {:induction false} WatchedOnceConfirmed(s: Race, moves: seq<Move>, ok: (Race, Move) -> bool)
    requires Opened(s) && s.request.status != PendingStoreKey && Throughout(s, moves, ok)
    ensures Watched(s, moves) <==> s.flight != map[] || exists k :: 0 <= k < |moves| && Submits(moves[k])
    decreases moves
  {
    if s.flight == map[] && moves != [] {
      var rest := moves[1..];
      StaysOpened(s, moves[0]);
      if After(s, moves[0]).request.status == PendingStoreKey {
        PendingIsNeverRegained(s, moves[0]);
      }
      WatchedOnceConfirmed(After(s, moves[0]), rest, ok);
      assert forall k :: 0 <= k < |rest| ==> moves[k + 1] == rest[k];
      if Submits(moves[0]) {
        assert moves[0].pid in After(s, moves[0]).flight;
      } else if exists k :: 0 <= k < |moves| && Submits(moves[k]) {
        var k :| 0 <= k < |moves| && Submits(moves[k]);
        assert rest[k - 1] == moves[k];
      }
    }
  }

  lemma {:induction false} AwaitedUntilNow(s: Race, before: seq<Move>, rest: seq<Move>, ok: (Race, Move) -> bool)
    requires Throughout(s, before, ok) && Opened(Play(s, before)) && Play(s, before).request.status == PendingStoreKey
    ensures Opened(s) ==> s.request.status == PendingStoreKey
    ensures Watched(s, before + rest) <==> Watched(Play(s, before), rest)
    decreases before
  {
    if before == [] {
      assert before + rest == rest;
    } else {
      AwaitedUntilNow(After(s, before[0]), before[1..], rest, ok);
      if Opened(s) {
        StaysOpened(s, before[0]);
        PendingIsNeverRegained(s, before[0]);
      }
      assert (before + rest)[0] == before[0] && (before + rest)[1..] == before[1..] + rest;
    }
  }

  /**
   * A request whose confirmation is written after `before` and before `later` is watched
   * exactly if a finalizer is under way at that moment or some node submits later, be it
   * once more: the confirmation itself starts none.
   */
  lemma ConfirmationIsWatchedExactly(s: Race, before: seq<Move>, pid: nat, later: seq<Move>, ok: (Race, Move) -> bool)
    requires Throughout(s, before, ok) && Opened(Play(s, before)) && Play(s, before).request.status == PendingStoreKey
    requires Enabled(Play(s, before), Confirms(pid)) && Throughout(After(Play(s, before), Confirms(pid)), later, ok)
    ensures Watched(s, before + ([Confirms(pid)] + later)) <==>
              Play(s, before).flight != map[] || exists k :: 0 <= k < |later| && Submits(later[k])
  {
    var mid, rest := Play(s, before), [Confirms(pid)] + later;
    AwaitedUntilNow(s, before, rest, ok);
    assert rest[0] == Confirms(pid) && rest[1..] == later;
    WatchedOnceConfirmed(After(mid, Confirms(pid)), later, ok);
  }

  /** Only a submission can change what the leader has said. */
  lemma {:induction false} WordNeedsSubmission(s: Race, moves: seq<Move>)
    requires Play(s, moves).said != s.said
    ensures exists k :: 0 <= k < |moves| && Submits(moves[k])
    decreases moves
  {
    if !Submits(moves[0]) {
      OthersKeepVotes(s, moves[0]);
      WordNeedsSubmission(After(s, moves[0]), moves[1..]);
      var k :| 0 <= k < |moves[1..]| && Submits(moves[1..][k]);
      assert moves[k + 1] == moves[1..][k];
    } else {
      assert Submits(moves[0]);
    }
  }

  lemma {:induction false} RunStaysOpened(s: Race, moves: seq<Move>, ok: (Race, Move) -> bool)
    requires Opened(s) && Throughout(s, moves, ok)
    ensures Opened(Play(s, moves))
    decreases moves
  {
    if moves != [] {
      StaysOpened(s, moves[0]);
      RunStaysOpened(After(s, moves[0]), moves[1..], ok);
    }
  }

  /** A request that never awaits its key never loses its decision, as long as its result is not overwritten. */
  lemma QueuedDecisionIsNeverLost(s: Race, moves: seq<Move>)
    requires Fresh(s) && WellFormed(s.request) && s.request.status == Queued && Opened(s)
    requires Throughout(s, moves, Undisturbed)
    requires AllSubmitted(AsPosted(Play(s, moves))) && Play(s, moves).flight == map[]
    requires Play(s, moves).said.value.hash != ""
    requires FailedByTimeout !in Play(s, moves).log
    ensures Decided(Play(s, moves).request) && DecidedByCount(Play(s, moves))
  {
    WordNeedsSubmission(s, moves);
    WatchedOnceConfirmed(s, moves, Undisturbed);
    UndisturbedRunsKeep(s, moves);
    RunStaysOpened(s, moves, Undisturbed);
    QuietDecisionExactly(s, moves);
  }

  // --- The order of arrival ----------------------------------------------------------

  lemma SameVotesSameHolders(a: TextRequest, b: TextRequest)
    requires Quorum(a) == Quorum(b) && forall n :: n in Quorum(a) ==> VoteOf(a, n) == VoteOf(b, n)
    ensures forall h :: HeldByTwoThirds(a, h) <==> HeldByTwoThirds(b, h)
  {
    assert |Quorum(a)| == |Quorum(b)|;
    forall h ensures HeldByTwoThirds(a, h) <==> HeldByTwoThirds(b, h) {
      assert Holders(a, h) == Holders(b, h);
    }
  }

  lemma {:induction false} PlayKeepsQuorum(s: Race, moves: seq<Move>)
    ensures Quorum(Play(s, moves).request) == Quorum(s.request)
    decreases moves
  {
    if moves != [] && Enabled(s, moves[0]) {
      MoveKeepsQuorum(s, moves[0]);
      PlayKeepsQuorum(After(s, moves[0]), moves[1..]);
    }
  }

  /** Backed outcomes of two documents with the same holders are the same. */
  lemma SameHoldersSameOutcome(a: TextRequest, b: TextRequest, one: Outcome, other: Outcome)
    requires WellFormed(a) && WellFormed(b) && Backed(a, one) && Backed(b, other)
    requires one != FailedByTimeout && other != FailedByTimeout
    requires forall h :: HeldByTwoThirds(a, h) <==> HeldByTwoThirds(b, h)
    ensures one == other
  {
    BackedIsTwoThirds(a, one);
    BackedIsTwoThirds(b, other);
    if one.AcceptedWith? {
      assert HeldByTwoThirds(b, one.hash);
      if other.AcceptedWith? {
        TwoThirdsHoldersAgree(b, one.hash, other.hash);
      }
    }
    assert other.AcceptedWith? ==> HeldByTwoThirds(a, other.hash);
  }

  /**
   * Two runs in which the nodes cast the same votes write the same decision, in whatever
   * order submissions arrive, calls interleave, the key is confirmed and results get lost.
   */
  lemma ArrivalOrderIsIrrelevant(s: Race, one: seq<Move>, other: seq<Move>, o: Outcome, o': Outcome)
    requires Fresh(s) && WellFormed(s.request) && Throughout(s, one, KeepsHash) && Throughout(s, other, KeepsHash)
    requires forall a :: a in Quorum(s.request) ==> VoteOf(AsPosted(Play(s, one)), a) == VoteOf(AsPosted(Play(s, other)), a)
    requires o in Play(s, one).log && o' in Play(s, other).log && o != FailedByTimeout && o' != FailedByTimeout
    ensures o == o'
  {
    var a, b := Play(s, one), Play(s, other);
    PlayKeepsQuorum(s, one);
    PlayKeepsQuorum(s, other);
    PlayKeepsConsistent(s, one, KeepsHash);
    PlayKeepsConsistent(s, other, KeepsHash);
    SameVotesSameHolders(AsPosted(a), AsPosted(b));
    SameHoldersSameOutcome(AsPosted(a), AsPosted(b), o, o');
  }

  /** A watched, undisturbed run in which everybody has submitted and every finalizer is done. */
  ghost predicate Complete(s: Race, moves: seq<Move>) {
    && Throughout(s, moves, Undisturbed) && Watched(s, moves)
    && AllSubmitted(AsPosted(Play(s, moves))) && Quiet(Play(s, moves)) && FailedByTimeout !in Play(s, moves).log
    && Play(s, moves).said.value.hash != ""
  }

  lemma CompleteRunShows(s: Race, moves: seq<Move>)
    requires Fresh(s) && WellFormed(s.request) && Complete(s, moves)
    ensures Throughout(s, moves, KeepsHash)
    ensures Play(s, moves).log != [] && Shows(AsPosted(Play(s, moves)), Play(s, moves).log)
  {
    UndisturbedRunsKeep(s, moves);
    ShownRunsKeep(s, moves);
    UndisturbedDecisionExactly(s, moves);
  }

  lemma SameLastShowsAlike(a: Race, b: Race)
    requires Shows(AsPosted(a), a.log) && Shows(AsPosted(b), b.log) && a.log != [] && b.log != []
    requires a.log[|a.log| - 1] == b.log[|b.log| - 1]
    ensures a.request.status == b.request.status && Winner(a.log) == Winner(b.log)
  {
  }

  /** Two complete runs with the same votes end in the same status with the same winning hash. */
  lemma CompleteRunsEndAlike(s: Race, one: seq<Move>, other: seq<Move>)
    requires Fresh(s) && WellFormed(s.request) && Complete(s, one) && Complete(s, other)
    requires forall a :: a in Quorum(s.request) ==> VoteOf(AsPosted(Play(s, one)), a) == VoteOf(AsPosted(Play(s, other)), a)
    ensures Play(s, one).request.status == Play(s, other).request.status
    ensures Winner(Play(s, one).log) == Winner(Play(s, other).log)
  {
    var a, b := Play(s, one), Play(s, other);
    CompleteRunShows(s, one);
    CompleteRunShows(s, other);
    LastIsLogged(a.log);
    LastIsLogged(b.log);
    ArrivalOrderIsIrrelevant(s, one, other, a.log[|a.log| - 1], b.log[|b.log| - 1]);
    SameLastShowsAlike(a, b);
  }

  // --- When the commitment field shows the winner ------------------------------------

  lemma AcceptedHasWinner(s: Race)
    requires Shows(AsPosted(s), s.log)
    ensures s.request.status == Accepted <==> Winner(s.log).Some?
  {
  }

  /** A leader posts over an acceptance of another hash. */
  predicate OverwritesWinner(s: Race, m: Move) {
    m.Leader? && s.request.status == Accepted && s.request.commitment != Some(m.result.hash)
  }

  predicate SparesWinner(s: Race, m: Move) {
    KeepsHash(s, m) && !OverwritesWinner(s, m) && !Reopens(s, m)
  }

  ghost predicate ShowsWinner(s: Race) {
    s.request.status == Accepted ==> s.request.commitment == Winner(s.log)
  }

  lemma WriteShowsWinner(s: Race, m: Move)
    requires Shows(AsPosted(s), s.log) && Enabled(s, m) && m.Writes? && ShowsWinner(s)
    ensures ShowsWinner(After(s, m))
  {
    AcceptedHasWinner(s);
    StatusChanges(s, m);
    if OutcomeOf(s.request, s.flight[m.pid]) == [] {
      assert s.log + [] == s.log;
    }
  }

  /** One move leaves the winner in the commitment field exactly if it is not such a post. */
  lemma MoveShowsWinnerExactly(s: Race, m: Move)
    requires Shows(AsPosted(s), s.log) && Enabled(s, m) && ShowsWinner(s)
    ensures ShowsWinner(After(s, m)) <==> !OverwritesWinner(s, m)
  {
    if m.Writes? {
      WriteShowsWinner(s, m);
    } else {
      AcceptedHasWinner(s);
      StatusChanges(s, m);
    }
  }

  lemma {:induction false} PlayShowsWinner(s: Race, moves: seq<Move>)
    requires Consistent(s) && Shows(AsPosted(s), s.log) && ShowsWinner(s) && Throughout(s, moves, SparesWinner)
    ensures ShowsWinner(Play(s, moves))
    decreases moves
  {
    if moves != [] {
      MoveShowsWinnerExactly(s, moves[0]);
      MoveShowsExactly(s, moves[0]);
      MoveKeepsConsistent(s, moves[0]);
      PlayShowsWinner(After(s, moves[0]), moves[1..]);
    }
  }
}
