/**
 * The risk mode as it really runs: the finalizer awaits between reading the submission,
 * reading the rows and committing, the commit between its own status test, each row it
 * rewrites, the certificate and the decision; a verifier's post, claims, polls and permits
 * read first and write later. Nothing is read again before a write.
 */
module RiskRaces {
  import opened Prelude
  import opened TextRequests
  import opened NodeCalls
  import opened VerdictAggregator
  import opened RiskRequests

  /** What is handed to a commit. */
  datatype Proposal = Proposal(hash: string, confidence: nat, provided: seq<Verdict>)

  /** Where a finalizer or a commit stands; `kept` is the submission in the metadata that the commit writes back. */
  datatype Phase =
    | Spawned
    | Begun(submission: LeaderSubmission)
    | Proposed(proposal: Proposal)
    | Rewriting(passed: Proposal, kept: Option<LeaderSubmission>, next: nat)
    | Certified(done: Proposal, back: Option<LeaderSubmission>)

  /**
   * A post or an attachment of permits under way: a verifier's row is stored, then its entry
   * is marked by rewriting all entries as they were read; the attachment puts back the
   * metadata that it read, with the leader's submission in it or without. The closing write
   * of the request's creation is such an attachment that has read before anybody posted.
   */
  datatype Draft =
    | Answered(verifier: string)
    | Completing(answering: string, base: Entries)
    | Attaching(held: Option<LeaderSubmission>)

  datatype RiskOutcome = Decides(decision: RiskDecision) | TimesOut

  /** The leader's last post is remembered, since the document may lose it. */
  datatype Race = Race(
    request: RiskRequest,
    now: real,
    flight: map<nat, Phase>,
    log: seq<RiskOutcome>,
    calls: map<nat, Call>,
    drafts: map<nat, Draft>,
    said: Option<LeaderSubmission>)

  datatype Move =
    | Leader(submission: LeaderSubmission, pid: nat)
    | Verifier(row: RiskRow, pid: nat)
    | ReadsForDone(pid: nat)
    | Completes(pid: nat)
    | Direct(proposal: Proposal, pid: nat)
    | Begins(pid: nat)
    | Gathers(pid: nat)
    | Checks(pid: nat)
    | Rewrites(pid: nat)
    | Certifies(pid: nat)
    | Writes(pid: nat)
    | Node(step: NodeStep)
    | ReadsForAttach(pid: nat)
    | Attaches(pid: nat)
    | Waits(until: real)

  function Members(t: RiskRequest): seq<string> {
    [t.leader] + t.verifiers
  }

  function DeskNow(r: Race): Desk {
    Desk(r.request.nodes, r.request.status == RiskQueued, r.calls)
  }

  predicate Enabled(r: Race, m: Move) {
    match m
    case Leader(_, pid) => pid !in r.flight
    case Verifier(row, pid) => pid !in r.drafts && row.verifier in r.request.verifiers
    case ReadsForDone(pid) => pid in r.drafts && r.drafts[pid].Answered?
    case Completes(pid) => pid in r.drafts && r.drafts[pid].Completing? && pid !in r.flight
    case Direct(_, pid) => pid !in r.flight
    case Begins(pid) => pid in r.flight && r.flight[pid].Spawned?
    case Gathers(pid) => pid in r.flight && r.flight[pid].Begun?
    case Checks(pid) => pid in r.flight && r.flight[pid].Proposed?
    case Rewrites(pid) => pid in r.flight && r.flight[pid].Rewriting? && r.flight[pid].next < |r.request.verifiers|
    case Certifies(pid) => pid in r.flight && r.flight[pid].Rewriting? && r.flight[pid].next >= |r.request.verifiers|
    case Writes(pid) => pid in r.flight && r.flight[pid].Certified?
    case Node(step) => Can(DeskNow(r), Members(r.request), r.now, step)
    case ReadsForAttach(pid) => pid !in r.drafts
    case Attaches(pid) => pid in r.drafts && r.drafts[pid].Attaching?
    case Waits(_) => true
  }

  function DecisionOf(t: RiskRequest, p: Proposal): RiskDecision {
    Weighed(t.verifiers, p.hash, p.confidence, p.provided)
  }

  /** The verdict that a commit counts for one verifier. */
  function Counted(t: RiskRequest, p: Proposal, i: nat): Verdict
    requires i < |t.verifiers|
  {
    VerdictOf(t.verifiers[i], p.provided)
  }

  function ProposalOf(t: RiskRequest, s: LeaderSubmission): Proposal
    requires AllIn(t)
  {
    Proposal(s.hash, s.confidence, Provided(t, s))
  }

  function AfterNode(r: Race, step: NodeStep): Race
    requires Enabled(r, Node(step))
  {
    var d := Do(DeskNow(r), Members(r.request), r.now, step);
    r.(request := r.request.(nodes := d.nodes, status := if step.Fails? then RiskFailed else r.request.status),
       calls := d.calls, log := r.log + if step.Fails? then [TimesOut] else [])
  }

  /** The finalizers' and commits' own steps. */
  function AfterCommit(r: Race, m: Move): Race
    requires Enabled(r, m) && (m.Begins? || m.Gathers? || m.Checks? || m.Rewrites? || m.Certifies? || m.Writes?)
  {
    var t, pid := r.request, m.pid;
    match m
    case Begins(_) =>
      if t.status == RiskQueued && t.submission.Some? then r.(flight := r.flight[pid := Begun(t.submission.value)])
      else r.(flight := r.flight - {pid})
    case Gathers(_) =>
      if AllIn(t) then r.(flight := r.flight[pid := Proposed(ProposalOf(t, r.flight[pid].submission))])
      else r.(flight := r.flight - {pid})
    case Checks(_) =>
      if Committable(t) then r.(flight := r.flight[pid := Rewriting(r.flight[pid].proposal, t.submission, 0)])
      else r.(flight := r.flight - {pid})
    case Rewrites(_) =>
      var c := r.flight[pid];
      r.(request := t.(rows := Stored(t.rows, Settled(Counted(t, c.passed, c.next)))),
         flight := r.flight[pid := c.(next := c.next + 1)])
    case Certifies(_) =>
      var c := r.flight[pid];
      r.(request := t.(certificate := Some(DecisionOf(t, c.passed))), flight := r.flight[pid := Certified(c.passed, c.kept)])
    case Writes(_) =>
      var c := r.flight[pid];
      var d := DecisionOf(t, c.done);
      r.(request := t.(status := StatusOf(d), decision := Some(d), submission := c.back),
         flight := r.flight - {pid}, log := r.log + [Decides(d)])
  }

  predicate Commits(m: Move) {
    m.Begins? || m.Gathers? || m.Checks? || m.Rewrites? || m.Certifies? || m.Writes?
  }

  function After(r: Race, m: Move): Race
    requires Enabled(r, m)
  {
    var t := r.request;
    if Commits(m) then AfterCommit(r, m)
    else
      match m
      case Leader(s, pid) => r.(request := t.(submission := Some(s)), said := Some(s), flight := r.flight[pid := Spawned])
      case Verifier(row, pid) => r.(request := t.(rows := Stored(t.rows, row)), drafts := r.drafts[pid := Answered(row.verifier)])
      case ReadsForDone(pid) => r.(drafts := r.drafts[pid := Completing(r.drafts[pid].verifier, t.nodes)])
      case Completes(pid) =>
        var c := r.drafts[pid];
        r.(request := t.(nodes := WithEntryStatus(c.base, c.answering, Completed)), drafts := r.drafts - {pid},
           flight := r.flight[pid := Spawned])
      case Direct(p, pid) => r.(flight := r.flight[pid := Proposed(p)])
      case Node(step) => AfterNode(r, step)
      case ReadsForAttach(pid) => r.(drafts := r.drafts[pid := Attaching(t.submission)])
      case Attaches(pid) => r.(request := t.(submission := r.drafts[pid].held), drafts := r.drafts - {pid})
      case Waits(until) => r.(now := if until > r.now then until else r.now)
  }

  /** Every move of the run is enabled and satisfies `ok`. */
  ghost predicate Throughout(r: Race, moves: seq<Move>, ok: (Race, Move) -> bool)
    decreases moves
  {
    moves == [] || (Enabled(r, moves[0]) && ok(r, moves[0]) && Throughout(After(r, moves[0]), moves[1..], ok))
  }

  function Play(r: Race, moves: seq<Move>): Race
    decreases moves
  {
    if moves == [] then r
    else if Enabled(r, moves[0]) then Play(After(r, moves[0]), moves[1..])
    else r
  }

  /** Before anybody has posted or claimed anything; a risk request is created without entries. */
  predicate Fresh(r: Race) {
    && r.flight == map[] && r.log == [] && r.calls == map[] && r.drafts == map[] && r.said.None?
    && r.request.status == RiskQueued && r.request.submission.None? && r.request.rows == [] && r.request.nodes == map[]
    && r.request.decision.None? && r.request.certificate.None?
    && r.request.verifiers != [] && DistinctVerifiers(r.request.verifiers)
  }

  // --- Agreement ---------------------------------------------------------------------

  /** What the nodes have to say, if they say it: one submission and one row for each verifier. */
  datatype Voices = Voices(leader: LeaderSubmission, rows: map<string, RiskRow>)

  ghost predicate Covers(voices: Voices, verifiers: seq<string>) {
    forall v :: v in verifiers ==> v in voices.rows && voices.rows[v].verifier == v
  }

  /** The verdict that a verifier's own row gives. */
  function Spoken(voices: Voices, verifiers: seq<string>): (spoken: seq<Verdict>)
    requires Covers(voices, verifiers)
    ensures |spoken| == |verifiers|
  {
    seq(|verifiers|, i requires 0 <= i < |verifiers| => VerdictFrom(verifiers[i], voices.rows[verifiers[i]], voices.leader))
  }

  function Called(voices: Voices, verifiers: seq<string>): Proposal
    requires Covers(voices, verifiers)
  {
    Proposal(voices.leader.hash, voices.leader.confidence, Spoken(voices, verifiers))
  }

  /** The decision that the nodes call for. */
  function Verdicts(voices: Voices, verifiers: seq<string>): RiskDecision
    requires Covers(voices, verifiers)
  {
    Weighed(verifiers, voices.leader.hash, voices.leader.confidence, Spoken(voices, verifiers))
  }

  /** Nodes post nothing but their voice, any number of times, and nobody calls the commit from outside. */
  predicate Says(voices: Voices, m: Move) {
    match m
    case Leader(s, _) => s == voices.leader
    case Verifier(row, _) => row.verifier in voices.rows && row == voices.rows[row.verifier]
    case Direct(_, _) => false
    case _ => true
  }

  /** A stored row gives the verdict of its verifier's voice, whether posted or rewritten by a commit. */
  predicate Echoes(row: RiskRow, voices: Voices) {
    && row.verifier in voices.rows
    && VerdictFrom(row.verifier, row, voices.leader) == VerdictFrom(row.verifier, voices.rows[row.verifier], voices.leader)
  }

  predicate Quotes(held: Option<LeaderSubmission>, voices: Voices) {
    held.Some? ==> held.value == voices.leader
  }

  ghost predicate PhaseFits(p: Phase, voices: Voices, verifiers: seq<string>)
    requires Covers(voices, verifiers)
  {
    match p
    case Spawned => true
    case Begun(s) => s == voices.leader
    case Proposed(p) => p == Called(voices, verifiers)
    case Rewriting(p, kept, _) => p == Called(voices, verifiers) && Quotes(kept, voices)
    case Certified(p, kept) => p == Called(voices, verifiers) && Quotes(kept, voices)
  }

  ghost predicate RowsFit(t: RiskRequest, voices: Voices) {
    WellKept(t) && forall row :: row in t.rows ==> Echoes(row, voices)
  }

  ghost predicate FlightFits(r: Race, voices: Voices)
    requires Covers(voices, r.request.verifiers)
  {
    forall pid :: pid in r.flight ==> PhaseFits(r.flight[pid], voices, r.request.verifiers)
  }

  ghost predicate SubmissionFits(r: Race, voices: Voices) {
    && Quotes(r.request.submission, voices)
    && forall pid :: pid in r.drafts && r.drafts[pid].Attaching? ==> Quotes(r.drafts[pid].held, voices)
  }

  function OutcomeStatus(o: RiskOutcome): RiskStatus {
    match o
    case Decides(d) => StatusOf(d)
    case TimesOut => RiskFailed
  }

  predicate DecisionLogged(log: seq<RiskOutcome>) {
    exists o :: o in log && o.Decides?
  }

  /** The status is that of the last outcome. */
  predicate Shows(t: RiskRequest, log: seq<RiskOutcome>) {
    t.status == if log == [] then RiskQueued else OutcomeStatus(log[|log| - 1])
  }

  /** Every decision is the one that the voices call for, and the request shows it from the first write on. */
  ghost predicate DecisionFits(r: Race, voices: Voices)
    requires Covers(voices, r.request.verifiers)
  {
    var d, t := Verdicts(voices, r.request.verifiers), r.request;
    && (forall o :: o in r.log ==> o == TimesOut || o == Decides(d))
    && (t.certificate.Some? ==> t.certificate.value == d)
    && (forall pid :: pid in r.flight && r.flight[pid].Certified? ==> t.certificate.Some?)
    && Shows(t, r.log)
    && t.decision == (if DecisionLogged(r.log) then Some(d) else None)
    && (DecisionLogged(r.log) ==> t.certificate.Some?)
  }

  ghost predicate Fits(r: Race, voices: Voices) {
    && Covers(voices, r.request.verifiers)
    && RowsFit(r.request, voices) && FlightFits(r, voices) && SubmissionFits(r, voices) && DecisionFits(r, voices)
  }

  lemma StoringKeepsFit(t: RiskRequest, row: RiskRow, voices: Voices)
    requires RowsFit(t, voices) && row.verifier in t.verifiers && Echoes(row, voices)
    ensures RowsFit(t.(rows := Stored(t.rows, row)), voices)
  {
    StoringKeepsRows(t, row);
  }

  /** A finalizer that finds every row gathers exactly what the nodes have to say. */
  lemma GatheredIsSpoken(t: RiskRequest, voices: Voices)
    requires Covers(voices, t.verifiers) && RowsFit(t, voices) && AllIn(t)
    ensures Provided(t, voices.leader) == Spoken(voices, t.verifiers)
  {
    forall i | 0 <= i < |t.verifiers| ensures Provided(t, voices.leader)[i] == Spoken(voices, t.verifiers)[i] {
      var v := t.verifiers[i];
      var row := LastRow(t.rows, Lower(v)).value;
      LastRowIsOnlyRow(t.rows, Lower(v));
      assert row in t.rows && Lower(row.verifier) == Lower(v);
      SameLowerSameVerifier(t.verifiers, row.verifier, v);
      assert Echoes(row, voices);
    }
  }

  /** The row that a commit writes back says what its verifier said. */
  lemma RewrittenRowEchoes(t: RiskRequest, voices: Voices, i: nat)
    requires Covers(voices, t.verifiers) && DistinctVerifiers(t.verifiers) && i < |t.verifiers|
    ensures Settled(Counted(t, Called(voices, t.verifiers), i)).verifier == t.verifiers[i]
    ensures Echoes(Settled(Counted(t, Called(voices, t.verifiers), i)), voices)
  {
    var spoken := Spoken(voices, t.verifiers);
    ListedAreCounted(t.verifiers, spoken);
    assert VerdictsOf(t.verifiers, spoken)[i] == spoken[i];
  }

  lemma DecisionLoggedAppend(log: seq<RiskOutcome>, o: RiskOutcome)
    ensures DecisionLogged(log + [o]) <==> DecisionLogged(log) || o.Decides?
  {
    assert (log + [o])[|log|] == o;
    if DecisionLogged(log) {
      var d :| d in log && d.Decides?;
      assert d in log + [o];
    }
  }

  lemma PostKeepsFits(r: Race, m: Move, voices: Voices)
    requires Fits(r, voices) && Enabled(r, m) && Says(voices, m) && (m.Leader? || m.Verifier?)
    ensures Fits(After(r, m), voices)
  {
    if m.Verifier? {
      StoringKeepsFit(r.request, m.row, voices);
    }
  }

  lemma AsideKeepsSubmission(r: Race, m: Move, voices: Voices)
    requires SubmissionFits(r, voices) && Enabled(r, m) && (m.ReadsForDone? || m.Completes? || m.ReadsForAttach? || m.Attaches? || m.Waits?)
    ensures SubmissionFits(After(r, m), voices)
  {
  }

  lemma AsideKeepsFits(r: Race, m: Move, voices: Voices)
    requires Fits(r, voices) && Enabled(r, m) && (m.ReadsForDone? || m.Completes? || m.ReadsForAttach? || m.Attaches? || m.Waits?)
    ensures Fits(After(r, m), voices)
  {
    AsideKeepsSubmission(r, m, voices);
  }

  lemma NodeKeepsFits(r: Race, step: NodeStep, voices: Voices)
    requires Fits(r, voices) && Enabled(r, Node(step))
    ensures Fits(AfterNode(r, step), voices)
  {
    DecisionLoggedAppend(r.log, TimesOut);
    assert !step.Fails? ==> r.log + [] == r.log;
  }

  lemma FinalizerKeepsFits(r: Race, m: Move, voices: Voices)
    requires Fits(r, voices) && Enabled(r, m) && (m.Begins? || m.Gathers? || m.Checks?)
    ensures Fits(AfterCommit(r, m), voices)
  {
    FinalizerKeepsFlight(r, m, voices);
    FinalizerKeepsDecision(r, m, voices);
  }

  lemma FinalizerKeepsDecision(r: Race, m: Move, voices: Voices)
    requires Covers(voices, r.request.verifiers) && DecisionFits(r, voices)
    requires Enabled(r, m) && (m.Begins? || m.Gathers? || m.Checks?)
    ensures DecisionFits(AfterCommit(r, m), voices) && AfterCommit(r, m).request == r.request
  {
  }

  lemma FinalizerKeepsFlight(r: Race, m: Move, voices: Voices)
    requires Covers(voices, r.request.verifiers) && RowsFit(r.request, voices) && FlightFits(r, voices) && SubmissionFits(r, voices)
    requires Enabled(r, m) && (m.Begins? || m.Gathers? || m.Checks?)
    ensures FlightFits(AfterCommit(r, m), voices)
  {
    assert PhaseFits(r.flight[m.pid], voices, r.request.verifiers);
    if m.Gathers? && AllIn(r.request) {
      GatheredIsSpoken(r.request, voices);
    }
  }

  lemma CertifyKeepsFits(r: Race, m: Move, voices: Voices)
    requires Fits(r, voices) && Enabled(r, m) && m.Certifies?
    ensures Fits(AfterCommit(r, m), voices)
  {
    assert PhaseFits(r.flight[m.pid], voices, r.request.verifiers);
  }

  lemma WriteKeepsFits(r: Race, m: Move, voices: Voices)
    requires Fits(r, voices) && Enabled(r, m) && m.Writes?
    ensures Fits(AfterCommit(r, m), voices)
  {
    assert PhaseFits(r.flight[m.pid], voices, r.request.verifiers);
    DecisionLoggedAppend(r.log, Decides(DecisionOf(r.request, r.flight[m.pid].done)));
  }

  lemma RewriteKeepsFits(r: Race, m: Move, voices: Voices)
    requires Fits(r, voices) && Enabled(r, m) && m.Rewrites?
    ensures Fits(AfterCommit(r, m), voices)
  {
    assert PhaseFits(r.flight[m.pid], voices, r.request.verifiers);
    var c := r.flight[m.pid];
    var row := Settled(Counted(r.request, c.passed, c.next));
    RewrittenRowEchoes(r.request, voices, c.next);
    StoringKeepsFit(r.request, row, voices);
  }

  lemma MoveKeepsFits(r: Race, m: Move, voices: Voices)
    requires Fits(r, voices) && Enabled(r, m) && Says(voices, m)
    ensures Fits(After(r, m), voices) && After(r, m).request.verifiers == r.request.verifiers
  {
    if m.Leader? || m.Verifier? {
      PostKeepsFits(r, m, voices);
    } else if m.Node? {
      NodeKeepsFits(r, m.step, voices);
    } else if m.Begins? || m.Gathers? || m.Checks? {
      FinalizerKeepsFits(r, m, voices);
    } else if m.Rewrites? {
      RewriteKeepsFits(r, m, voices);
    } else if m.Certifies? {
      CertifyKeepsFits(r, m, voices);
    } else if m.Writes? {
      WriteKeepsFits(r, m, voices);
    } else {
      AsideKeepsFits(r, m, voices);
    }
  }

  lemma {:induction false} PlayKeepsFits(r: Race, moves: seq<Move>, voices: Voices, ok: (Race, Move) -> bool)
    requires Fits(r, voices) && Throughout(r, moves, ok) && forall s, m :: ok(s, m) ==> Says(voices, m)
    ensures Fits(Play(r, moves), voices) && Play(r, moves).request.verifiers == r.request.verifiers
    decreases moves
  {
    if moves != [] {
      MoveKeepsFits(r, moves[0], voices);
      PlayKeepsFits(After(r, moves[0]), moves[1..], voices, ok);
    }
  }

  /** The verifiers, by position, whose own row confirms the leader. */
  function Supporters(voices: Voices, verifiers: seq<string>): set<nat>
    requires Covers(voices, verifiers)
  {
    set i | 0 <= i < |verifiers| && Opinion(voices.rows[verifiers[i]], voices.leader)
  }

  /** What the nodes call for is the majority of their own opinions. */
  lemma VerdictsAreMajority(voices: Voices, verifiers: seq<string>)
    requires Covers(voices, verifiers) && DistinctVerifiers(verifiers)
    ensures Verdicts(voices, verifiers).accepted <==> 2 * |Supporters(voices, verifiers)| >= |verifiers|
    ensures Verdicts(voices, verifiers).confirms == |Supporters(voices, verifiers)|
  {
    var spoken := Spoken(voices, verifiers);
    ListedAreCounted(verifiers, spoken);
    assert Supporters(voices, verifiers) == set i | 0 <= i < |verifiers| && spoken[i].accepted;
  }

  /**
   * However many finalizers, commits, claims and polls overlap, every decision that is
   * written is the one that the nodes' own rows call for; decision and certificate show it
   * from the first one on, and the status shows the last outcome.
   */
  lemma RacingCommitsAgree(r: Race, moves: seq<Move>, voices: Voices, ok: (Race, Move) -> bool)
    requires Fresh(r) && Covers(voices, r.request.verifiers)
    requires Throughout(r, moves, ok) && forall s, m :: ok(s, m) ==> Says(voices, m)
    ensures
      var end, d := Play(r, moves), Verdicts(voices, r.request.verifiers);
      var t := end.request;
      && (forall o :: o in end.log && o.Decides? ==> o.decision == d)
      && (d.accepted <==> 2 * |Supporters(voices, r.request.verifiers)| >= |r.request.verifiers|)
      && Shows(t, end.log)
      && (if DecisionLogged(end.log) then t.decision == Some(d) && t.certificate == Some(d) else t.decision.None?)
  {
    assert !DecisionLogged(r.log);
    PlayKeepsFits(r, moves, voices, ok);
    VerdictsAreMajority(voices, r.request.verifiers);
  }

  // --- Timeouts against decisions ----------------------------------------------------

  predicate OneKind(log: seq<RiskOutcome>) {
    forall i, j :: 0 <= i < |log| && 0 <= j < |log| ==> log[i].Decides? == log[j].Decides?
  }

  lemma OneKindAppend(log: seq<RiskOutcome>, o: RiskOutcome)
    ensures OneKind(log + [o]) <==> OneKind(log) && (log == [] || log[|log| - 1].Decides? == o.Decides?)
  {
    var more := log + [o];
    assert forall i :: 0 <= i < |log| ==> more[i] == log[i];
    if log != [] && OneKind(log) && log[|log| - 1].Decides? == o.Decides? {
      forall i | 0 <= i < |more| ensures more[i].Decides? == o.Decides? {
        assert i < |log| ==> log[i].Decides? == log[|log| - 1].Decides?;
      }
    }
    if OneKind(more) && log != [] {
      assert more[|log| - 1].Decides? == more[|log|].Decides?;
    }
  }

  /** A commit writes onto a failed request, or a poll fails a decided one. */
  predicate Crosses(r: Race, m: Move) {
    || (m.Writes? && r.request.status == RiskFailed)
    || (m.Node? && m.step.Fails? && (r.request.status == RiskAccepted || r.request.status == RiskRejected))
  }

  lemma WriteKeepsOneKindExactly(r: Race, m: Move)
    requires Shows(r.request, r.log) && Enabled(r, m) && m.Writes?
    ensures Shows(AfterCommit(r, m).request, AfterCommit(r, m).log)
    ensures OneKind(AfterCommit(r, m).log) <==> OneKind(r.log) && r.request.status != RiskFailed
  {
    OneKindAppend(r.log, Decides(DecisionOf(r.request, r.flight[m.pid].done)));
  }

  lemma NodeKeepsOneKindExactly(r: Race, step: NodeStep)
    requires Shows(r.request, r.log) && Enabled(r, Node(step))
    ensures Shows(AfterNode(r, step).request, AfterNode(r, step).log)
    ensures OneKind(AfterNode(r, step).log) <==> OneKind(r.log) && !Crosses(r, Node(step))
  {
    OneKindAppend(r.log, TimesOut);
    assert !step.Fails? ==> r.log + [] == r.log;
  }

  lemma MoveKeepsOneKindExactly(r: Race, m: Move)
    requires Shows(r.request, r.log) && Enabled(r, m)
    ensures Shows(After(r, m).request, After(r, m).log)
    ensures OneKind(After(r, m).log) <==> OneKind(r.log) && !Crosses(r, m)
  {
    if m.Writes? {
      WriteKeepsOneKindExactly(r, m);
    } else if m.Node? {
      NodeKeepsOneKindExactly(r, m.step);
    }
  }

  ghost predicate NeverCrosses(r: Race, moves: seq<Move>)
    decreases moves
  {
    moves == [] || (Enabled(r, moves[0]) && !Crosses(r, moves[0]) && NeverCrosses(After(r, moves[0]), moves[1..]))
  }

  /** A request gets a timeout and a decision exactly if one of them is written over the other. */
  lemma {:induction false} OneKindExactly(r: Race, moves: seq<Move>, ok: (Race, Move) -> bool)
    requires Shows(r.request, r.log) && Throughout(r, moves, ok)
    ensures OneKind(Play(r, moves).log) <==> OneKind(r.log) && NeverCrosses(r, moves)
    decreases moves
  {
    if moves != [] {
      MoveKeepsOneKindExactly(r, moves[0]);
      OneKindExactly(After(r, moves[0]), moves[1..], ok);
    }
  }
}
