/**
 * The quorum service as it really runs: the finalizer awaits between reading the document,
 * reading the verdict rows and writing its decision, and every submission starts another
 * one; the leader's post, claims, polls, key confirmations and permits read first and write
 * later as well. No write looks again at what it overwrites.
 */
module FinalizerRace {
  import opened Prelude
  import opened HashTally
  import opened TextRequests
  import opened NodeCalls
  import opened QuorumRuns

  /** Where a finalizer stands, with the values it has read so far. */
  datatype Phase =
    | Spawned
    | Begun(result: LeaderResult, stored: nat)
    | HasRows(seen: LeaderResult, kept: nat, rows: seq<VerdictRow>)

  /**
   * A write under way: the leader's post has read the node entries that it will rewrite; a
   * key confirmation and an attachment of permits have read the metadata that they will put
   * back, with the leader's result in it or without; the request's creation has stored it as
   * queued and will put its metadata and its status over it.
   */
  datatype Draft =
    | Posting(base: Entries)
    | Confirming(held: Option<LeaderResult>)
    | Attaching(held: Option<LeaderResult>)
    | Opening(keyPending: bool)

  /** The leader's result in the metadata that a write will put back; a creation has none. */
  function Held(d: Draft): Option<LeaderResult> {
    if d.Confirming? || d.Attaching? then d.held else None
  }

  /** A decision that some step wrote to the document. */
  datatype Outcome = AcceptedWith(hash: Hash) | RejectedByQuorum | FailedByTimeout

  /** The leader's last post is remembered, since the document may lose it. */
  datatype Race = Race(
    request: TextRequest,
    now: real,
    flight: map<nat, Phase>,
    log: seq<Outcome>,
    calls: map<nat, Call>,
    drafts: map<nat, Draft>,
    said: Option<LeaderResult>)

  datatype Move =
    | ReadsForPost(pid: nat)
    | Leader(result: LeaderResult, pid: nat)
    | Verifier(row: VerdictRow, pid: nat)
    | Begins(pid: nat)
    | Reads(pid: nat)
    | Writes(pid: nat)
    | Node(step: NodeStep)
    | ReadsForConfirm(pid: nat)
    | Confirms(pid: nat)
    | ReadsForAttach(pid: nat)
    | Attaches(pid: nat)
    | Opens(pid: nat)
    | Waits(until: real)

  function DeskNow(s: Race): Desk {
    Desk(s.request.nodes, Open(s.request.status), s.calls)
  }

  /** Which moves the service can make. */
  predicate Enabled(s: Race, m: Move) {
    match m
    case ReadsForPost(pid) => pid !in s.drafts
    case Leader(_, pid) => pid in s.drafts && s.drafts[pid].Posting? && pid !in s.flight
    case Verifier(row, pid) => pid !in s.flight && row.verifier in s.request.verifiers
    case Begins(pid) => pid in s.flight && s.flight[pid].Spawned?
    case Reads(pid) => pid in s.flight && s.flight[pid].Begun?
    case Writes(pid) => pid in s.flight && s.flight[pid].HasRows?
    case Node(step) => Can(DeskNow(s), Quorum(s.request), s.now, step)
    case ReadsForConfirm(pid) => pid !in s.drafts
    case Confirms(pid) => pid in s.drafts && s.drafts[pid].Confirming?
    case ReadsForAttach(pid) => pid !in s.drafts
    case Attaches(pid) => pid in s.drafts && s.drafts[pid].Attaching?
    case Opens(pid) => pid in s.drafts && s.drafts[pid].Opening?
    case Waits(_) => true
  }

  function OutcomeOf(t: TextRequest, p: Phase): seq<Outcome>
    requires p.HasRows?
  {
    match Decide(|t.verifiers|, p.seen.hash, Hashes(p.rows))
    case Undecided => []
    case Accept(h, _, _) => [AcceptedWith(h)]
    case Reject(_, _) => [RejectedByQuorum]
  }

  function AfterNode(s: Race, step: NodeStep): Race
    requires Enabled(s, Node(step))
  {
    var d := Do(DeskNow(s), Quorum(s.request), s.now, step);
    s.(request := s.request.(nodes := d.nodes, status := if step.Fails? then Failed else s.request.status),
       calls := d.calls, log := s.log + if step.Fails? then [FailedByTimeout] else [])
  }

  function After(s: Race, m: Move): Race
    requires Enabled(s, m)
  {
    match m
    case ReadsForPost(pid) => s.(drafts := s.drafts[pid := Posting(s.request.nodes)])
    case Leader(result, pid) =>
      s.(request := LeaderWriteOver(s.request, result, s.drafts[pid].base), said := Some(result),
         drafts := s.drafts - {pid}, flight := s.flight[pid := Spawned])
    case Verifier(row, pid) => s.(request := VerifierWrite(s.request, row), flight := s.flight[pid := Spawned])
    case Begins(pid) =>
      if Decidable(s.request) then s.(flight := s.flight[pid := Begun(s.request.result.value, s.request.confidence)])
      else s.(flight := s.flight - {pid})
    case Reads(pid) =>
      var p := s.flight[pid];
      s.(flight := s.flight[pid := HasRows(p.result, p.stored, s.request.rows)])
    case Writes(pid) =>
      var p := s.flight[pid];
      s.(request := WriteDecision(s.request, p.seen, p.kept, p.rows), flight := s.flight - {pid}, log := s.log + OutcomeOf(s.request, p))
    case Node(step) => AfterNode(s, step)
    case ReadsForConfirm(pid) =>
      if s.request.status == PendingStoreKey then s.(drafts := s.drafts[pid := Confirming(s.request.result)]) else s
    case Confirms(pid) => s.(request := ConfirmOver(s.request, s.drafts[pid].held), drafts := s.drafts - {pid})
    case ReadsForAttach(pid) => s.(drafts := s.drafts[pid := Attaching(s.request.result)])
    case Attaches(pid) => s.(request := s.request.(result := s.drafts[pid].held), drafts := s.drafts - {pid})
    case Opens(pid) =>
      s.(request := OpenOver(s.request, s.drafts[pid].keyPending), drafts := s.drafts - {pid})
    case Waits(until) => s.(now := if until > s.now then until else s.now)
  }

  /** The log only ever grows. */
  lemma LogGrows(s: Race, m: Move)
    requires Enabled(s, m)
    ensures s.log <= After(s, m).log
  {
  }

  /** Every move of the run is enabled and satisfies `ok` in the state it is made in. */
  ghost predicate Throughout(s: Race, moves: seq<Move>, ok: (Race, Move) -> bool)
    decreases moves
  {
    moves == [] || (Enabled(s, moves[0]) && ok(s, moves[0]) && Throughout(After(s, moves[0]), moves[1..], ok))
  }

  function Play(s: Race, moves: seq<Move>): Race
    decreases moves
  {
    if moves == [] then s
    else if Enabled(s, moves[0]) then Play(After(s, moves[0]), moves[1..])
    else s
  }

  /** A node may submit again, but not with another hash, even if the document has lost its first post. */
  predicate KeepsHash(s: Race, m: Move) {
    match m
    case Leader(result, _) => s.said.Some? ==> s.said.value.hash == result.hash
    case Verifier(row, _) =>
      var i := RowOf(s.request.rows, row.verifier);
      i < |s.request.rows| ==> s.request.rows[i].hash == row.hash
    case _ => true
  }

  /** The creation of the request has made its closing write. */
  predicate Opened(s: Race) {
    forall pid :: pid in s.drafts ==> !s.drafts[pid].Opening?
  }

  /** The request is stored, but its creation has not made its closing write. */
  ghost predicate BeingCreated(s: Race) {
    s.request.status == Queued && exists pid, keyPending :: s.drafts == map[pid := Opening(keyPending)]
  }

  /** Nobody has done anything with the request yet. */
  ghost predicate Fresh(s: Race) {
    && s.flight == map[] && s.log == [] && s.calls == map[]
    && (s.drafts == map[] || BeingCreated(s))
    && s.said.None? && s.request.result.None? && s.request.rows == []
    && (s.request.status == Queued || s.request.status == PendingStoreKey)
  }

  predicate Submits(m: Move) {
    m.Leader? || m.Verifier?
  }

  // --- The document stays well-formed ------------------------------------------------

  ghost predicate BasesCover(s: Race) {
    && CallsCover(Quorum(s.request), s.calls)
    && forall pid :: pid in s.drafts && s.drafts[pid].Posting? ==> Covers(Quorum(s.request), s.drafts[pid].base)
  }

  /** The document, and whatever may be written back over it, has an entry for every member. */
  ghost predicate Sturdy(s: Race) {
    WellFormed(s.request) && BasesCover(s)
  }

  lemma MoveKeepsQuorum(s: Race, m: Move)
    requires Enabled(s, m)
    ensures After(s, m).request.leader == s.request.leader && After(s, m).request.verifiers == s.request.verifiers
  {
  }

  lemma NodeKeepsSturdy(s: Race, step: NodeStep)
    requires Sturdy(s) && Enabled(s, Node(step))
    ensures Sturdy(AfterNode(s, step))
  {
    StepKeepsCovers(DeskNow(s), Quorum(s.request), s.now, step);
  }

  lemma MoveKeepsSturdy(s: Race, m: Move)
    requires Sturdy(s) && Enabled(s, m)
    ensures Sturdy(After(s, m)) && Quorum(After(s, m).request) == Quorum(s.request)
  {
    MoveKeepsQuorum(s, m);
    if m.Verifier? {
      UpsertKeepsOneRow(s.request.rows, m.row);
    } else if m.Node? {
      NodeKeepsSturdy(s, m.step);
    }
  }

  // --- Agreement ---------------------------------------------------------------------

  /** The document with the leader's last post in it, be it lost or not: the votes that have been cast. */
  function AsPosted(s: Race): TextRequest {
    s.request.(result := s.said)
  }

  function CurrentDecision(t: TextRequest): Decision
    requires t.result.Some?
  {
    Decide(|t.verifiers|, t.result.value.hash, Hashes(t.rows))
  }

  predicate SameLeaderHash(t: TextRequest, result: LeaderResult) {
    t.result.Some? && t.result.value.hash == result.hash && result.hash != ""
  }

  /** A finalizer in flight saw the leader's one hash and a prefix of today's verdict hashes. */
  ghost predicate Snapshot(t: TextRequest, p: Phase) {
    match p
    case Spawned => true
    case Begun(result, _) => SameLeaderHash(t, result)
    case HasRows(result, _, rows) => SameLeaderHash(t, result) && Hashes(rows) <= Hashes(t.rows)
  }

  /** A logged decision is still what the votes on record call for. */
  ghost predicate Backed(t: TextRequest, o: Outcome) {
    match o
    case AcceptedWith(h) =>
      t.result.Some? && t.result.value.hash != "" && CurrentDecision(t).Accept? && CurrentDecision(t).hash == h
    case RejectedByQuorum =>
      t.result.Some? && t.result.value.hash != "" && |t.rows| == |t.verifiers| && CurrentDecision(t).Reject?
    case FailedByTimeout => true
  }

  /** What a document or a draft holds of the leader is what the leader said. */
  predicate Quotes(said: Option<LeaderResult>, held: Option<LeaderResult>) {
    held.Some? ==> said.Some? && said.value.hash == held.value.hash
  }

  ghost predicate ResultsFit(s: Race) {
    && Quotes(s.said, s.request.result)
    && forall pid :: pid in s.drafts ==> Quotes(s.said, Held(s.drafts[pid]))
  }

  ghost predicate SnapshotsFit(s: Race) {
    forall p :: p in s.flight ==> Snapshot(AsPosted(s), s.flight[p])
  }

  ghost predicate LogBacked(s: Race) {
    forall o :: o in s.log ==> Backed(AsPosted(s), o)
  }

  ghost predicate Consistent(s: Race) {
    Sturdy(s) && ResultsFit(s) && SnapshotsFit(s) && LogBacked(s)
  }

  lemma HashesUpdate(rows: seq<VerdictRow>, i: nat, row: VerdictRow)
    requires i < |rows| && rows[i].hash == row.hash
    ensures Hashes(rows[i := row]) == Hashes(rows)
  {
  }

  lemma HashesAppend(rows: seq<VerdictRow>, row: VerdictRow)
    ensures Hashes(rows + [row]) == Hashes(rows) + [row.hash]
  {
  }

  /** A verdict that keeps its verifier's hash leaves the hashes alone or adds one at the end. */
  lemma VerdictAddsHash(rows: seq<VerdictRow>, row: VerdictRow)
    requires var i := RowOf(rows, row.verifier); i < |rows| ==> rows[i].hash == row.hash
    ensures Hashes(Upsert(rows, row)) == if RowOf(rows, row.verifier) < |rows| then Hashes(rows) else Hashes(rows) + [row.hash]
  {
    if RowOf(rows, row.verifier) < |rows| {
      HashesUpdate(rows, RowOf(rows, row.verifier), row);
    } else {
      HashesAppend(rows, row);
    }
  }

  /** More hashes under the same leader hash leave every earlier decision backed. */
  lemma MoreHashesKeepBacked(t: TextRequest, t': TextRequest, o: Outcome)
    requires WellFormed(t) && WellFormed(t') && t'.verifiers == t.verifiers
    requires t.result.Some? ==> t'.result.Some? && t'.result.value.hash == t.result.value.hash
    requires Hashes(t.rows) <= Hashes(t'.rows)
    requires Backed(t, o)
    ensures Backed(t', o)
  {
    RowsAreBounded(t);
    RowsAreBounded(t');
    if o.AcceptedWith? {
      AcceptanceIsStable(|t.verifiers|, t.result.value.hash, Hashes(t.rows), Hashes(t'.rows));
    } else if o.RejectedByQuorum? {
      assert Hashes(t'.rows) == Hashes(t.rows);
    }
  }

  /** What a finalizer decides from its snapshot is what the current votes call for. */
  lemma WriteIsBacked(t: TextRequest, p: Phase)
    requires WellFormed(t) && p.HasRows? && Snapshot(t, p)
    ensures forall o :: o in OutcomeOf(t, p) ==> Backed(t, o)
  {
    RowsAreBounded(t);
    match Decide(|t.verifiers|, p.seen.hash, Hashes(p.rows))
    case Undecided =>
    case Accept(_, _, _) =>
      AcceptanceIsStable(|t.verifiers|, p.seen.hash, Hashes(p.rows), Hashes(t.rows));
    case Reject(_, _) =>
      assert Hashes(p.rows) == Hashes(t.rows);
  }

  lemma BackedDependsOnVotes(t: TextRequest, t': TextRequest, o: Outcome)
    requires t'.result == t.result && t'.rows == t.rows && t'.verifiers == t.verifiers
    requires Backed(t, o)
    ensures Backed(t', o)
  {
  }

  /** What a submission that keeps its node's hash does to the votes. */
  lemma SubmissionAddsHash(s: Race, m: Move)
    requires Sturdy(s) && Enabled(s, m) && KeepsHash(s, m) && Submits(m)
    ensures
      var t, t' := AsPosted(s), AsPosted(After(s, m));
      && t'.verifiers == t.verifiers && t'.status == t.status && Hashes(t.rows) <= Hashes(t'.rows)
      && (t.result.Some? ==> t'.result.Some? && t'.result.value.hash == t.result.value.hash)
  {
    if m.Verifier? {
      VerdictAddsHash(s.request.rows, m.row);
    }
  }

  lemma SubmissionKeepsResults(s: Race, m: Move)
    requires ResultsFit(s) && Enabled(s, m) && KeepsHash(s, m) && Submits(m)
    ensures ResultsFit(After(s, m))
  {
  }

  lemma SubmissionKeepsSnapshots(s: Race, m: Move)
    requires Sturdy(s) && SnapshotsFit(s) && Enabled(s, m) && KeepsHash(s, m) && Submits(m)
    ensures SnapshotsFit(After(s, m))
  {
    SubmissionAddsHash(s, m);
  }

  lemma SubmissionKeepsBacked(s: Race, m: Move)
    requires Sturdy(s) && LogBacked(s) && Enabled(s, m) && KeepsHash(s, m) && Submits(m)
    ensures LogBacked(After(s, m))
  {
    MoveKeepsSturdy(s, m);
    SubmissionAddsHash(s, m);
    forall o | o in s.log ensures Backed(AsPosted(After(s, m)), o) {
      MoreHashesKeepBacked(AsPosted(s), AsPosted(After(s, m)), o);
    }
  }

  /** Only submissions change the votes. */
  lemma OthersKeepVotes(s: Race, m: Move)
    requires Enabled(s, m) && !Submits(m)
    ensures
      var t, t' := AsPosted(s), AsPosted(After(s, m));
      t'.result == t.result && t'.rows == t.rows && t'.verifiers == t.verifiers
  {
  }

  lemma OthersKeepResults(s: Race, m: Move)
    requires ResultsFit(s) && Enabled(s, m) && !Submits(m)
    ensures ResultsFit(After(s, m))
  {
  }

  lemma SnapshotDependsOnVotes(t: TextRequest, t': TextRequest, p: Phase)
    requires t'.result == t.result && t'.rows == t.rows && Snapshot(t, p)
    ensures Snapshot(t', p)
  {
  }

  /** A finalizer that begins or reads takes a snapshot of the votes. */
  lemma NewPhaseFits(s: Race, m: Move, p: nat)
    requires ResultsFit(s) && SnapshotsFit(s) && Enabled(s, m) && !Submits(m) && p in After(s, m).flight
    ensures p in s.flight
    ensures After(s, m).flight[p] == s.flight[p] || Snapshot(AsPosted(s), After(s, m).flight[p])
  {
    assert p in s.flight ==> Snapshot(AsPosted(s), s.flight[p]);
  }

  lemma OthersKeepSnapshots(s: Race, m: Move)
    requires ResultsFit(s) && SnapshotsFit(s) && Enabled(s, m) && !Submits(m)
    ensures SnapshotsFit(After(s, m))
  {
    OthersKeepVotes(s, m);
    var s' := After(s, m);
    forall p | p in s'.flight ensures Snapshot(AsPosted(s'), s'.flight[p]) {
      NewPhaseFits(s, m, p);
      SnapshotDependsOnVotes(AsPosted(s), AsPosted(s'), s'.flight[p]);
    }
  }

  lemma NewOutcomeIsBacked(s: Race, m: Move, o: Outcome)
    requires Sturdy(s) && SnapshotsFit(s) && Enabled(s, m) && o in After(s, m).log && o !in s.log
    ensures Backed(AsPosted(s), o)
  {
    if m.Writes? {
      assert Snapshot(AsPosted(s), s.flight[m.pid]);
      WriteIsBacked(AsPosted(s), s.flight[m.pid]);
    } else {
      assert o == FailedByTimeout;
    }
  }

  lemma OthersKeepBacked(s: Race, m: Move)
    requires Sturdy(s) && SnapshotsFit(s) && LogBacked(s) && Enabled(s, m) && !Submits(m)
    ensures LogBacked(After(s, m))
  {
    OthersKeepVotes(s, m);
    forall o | o in After(s, m).log ensures Backed(AsPosted(After(s, m)), o) {
      if o !in s.log {
        NewOutcomeIsBacked(s, m, o);
      }
      BackedDependsOnVotes(AsPosted(s), AsPosted(After(s, m)), o);
    }
  }

  lemma MoveKeepsConsistent(s: Race, m: Move)
    requires Consistent(s) && Enabled(s, m) && KeepsHash(s, m)
    ensures Consistent(After(s, m))
  {
    MoveKeepsSturdy(s, m);
    if Submits(m) {
      SubmissionKeepsResults(s, m);
      SubmissionKeepsSnapshots(s, m);
      SubmissionKeepsBacked(s, m);
    } else {
      OthersKeepResults(s, m);
      OthersKeepSnapshots(s, m);
      OthersKeepBacked(s, m);
    }
  }

  lemma {:induction false} PlayKeepsConsistent(s: Race, moves: seq<Move>, ok: (Race, Move) -> bool)
    requires Consistent(s) && Throughout(s, moves, ok)
    requires forall r, m :: ok(r, m) ==> KeepsHash(r, m)
    ensures Consistent(Play(s, moves))
    decreases moves
  {
    if moves != [] {
      MoveKeepsConsistent(s, moves[0]);
      PlayKeepsConsistent(After(s, moves[0]), moves[1..], ok);
    }
  }

  /**
   * However all calls interleave and nodes resubmit, and whatever the document loses on the
   * way: if no node changes its hash then any two quorum decisions that get written are the
   * same decision, with the same winning hash.
   */
  lemma RacingFinalizersAgree(s: Race, moves: seq<Move>, i: nat, j: nat)
    requires Fresh(s) && WellFormed(s.request) && Throughout(s, moves, KeepsHash)
    requires i < |Play(s, moves).log| && j < |Play(s, moves).log|
    requires Play(s, moves).log[i] != FailedByTimeout && Play(s, moves).log[j] != FailedByTimeout
    ensures Play(s, moves).log[i] == Play(s, moves).log[j]
  {
    PlayKeepsConsistent(s, moves, KeepsHash);
    var end := Play(s, moves);
    assert Backed(AsPosted(end), end.log[i]) && Backed(AsPosted(end), end.log[j]);
  }

  // --- Held by two thirds ------------------------------------------------------------

  /** The verdict the promised rule gives for the votes on record: the hash that two thirds of the nodes hold. */
  ghost predicate HeldByTwoThirds(t: TextRequest, h: Hash) {
    h != "" && 3 * |Holders(t, h)| >= 2 * TotalNodes(t)
  }

  ghost predicate AllSubmitted(t: TextRequest) {
    t.result.Some? && |t.rows| == |t.verifiers|
  }

  /** A backed decision in terms of who holds which hash. */
  lemma BackedIsTwoThirds(t: TextRequest, o: Outcome)
    requires WellFormed(t) && Backed(t, o)
    ensures o.AcceptedWith? ==> HeldByTwoThirds(t, o.hash)
    ensures o.RejectedByQuorum? ==> forall h :: !HeldByTwoThirds(t, h)
  {
    if o.AcceptedWith? {
      HeldIsAccepted(t, o.hash);
    } else if o.RejectedByQuorum? {
      forall h ensures !HeldByTwoThirds(t, h) {
        HeldIsAccepted(t, h);
      }
    }
  }

  /** Being held by two thirds is being what the present votes accept. */
  lemma HeldIsAccepted(t: TextRequest, h: Hash)
    requires WellFormed(t) && t.result.Some? && t.result.value.hash != ""
    ensures HeldByTwoThirds(t, h) <==> CurrentDecision(t).Accept? && CurrentDecision(t).hash == h
  {
    RowsAreBounded(t);
    HoldersAreVotes(t, h);
    AcceptedExactly(|t.verifiers|, t.result.value.hash, Hashes(t.rows), h);
  }

  // --- Any resubmissions -------------------------------------------------------------

  /** The document as a finalizer has seen it: the leader's result of its first read, the rows of its second. */
  function AsSeen(t: TextRequest, p: Phase): TextRequest
    requires p.HasRows?
  {
    t.(result := Some(p.seen), rows := p.rows)
  }

  ghost predicate SeenIsSound(t: TextRequest, p: Phase) {
    match p
    case Spawned => true
    case Begun(result, _) => result.hash != ""
    case HasRows(_, _, _) => WellFormed(AsSeen(t, p)) && p.seen.hash != ""
  }

  ghost predicate AllSeenSound(s: Race) {
    Sturdy(s) && forall p :: p in s.flight ==> SeenIsSound(s.request, s.flight[p])
  }

  /** What a finalizer holds stays well-formed, since quorum members and entries never leave the document. */
  lemma SeenStaysSound(t: TextRequest, t': TextRequest, p: Phase)
    requires WellFormed(t) && WellFormed(t') && Quorum(t') == Quorum(t) && SeenIsSound(t, p)
    ensures SeenIsSound(t', p)
  {
    assert t'.leader == Quorum(t')[0] == t.leader;
    assert t'.verifiers == Quorum(t')[1..] == t.verifiers;
  }

  lemma MoveKeepsSeenSound(s: Race, m: Move)
    requires AllSeenSound(s) && Enabled(s, m)
    ensures AllSeenSound(After(s, m))
  {
    var s' := After(s, m);
    MoveKeepsSturdy(s, m);
    forall p | p in s'.flight ensures SeenIsSound(s'.request, s'.flight[p]) {
      if p in s.flight {
        SeenStaysSound(s.request, s'.request, s.flight[p]);
      }
    }
  }

  lemma {:induction false} PlayKeepsSeenSound(s: Race, moves: seq<Move>)
    requires AllSeenSound(s)
    ensures AllSeenSound(Play(s, moves))
    decreases moves
  {
    if moves != [] && Enabled(s, moves[0]) {
      MoveKeepsSeenSound(s, moves[0]);
      PlayKeepsSeenSound(After(s, moves[0]), moves[1..]);
    }
  }

  /**
   * With any resubmissions and any interleaving, a finalizer only ever accepts a hash that
   * two thirds of the distinct assigned nodes posted as it saw them, and only rejects when
   * it saw a verdict of every verifier and no hash had two thirds.
   */
  lemma EveryDecisionFitsWhatWasSeen(s: Race, moves: seq<Move>, pid: nat, o: Outcome)
    requires Fresh(s) && WellFormed(s.request)
    requires Enabled(Play(s, moves), Writes(pid))
    requires o in OutcomeOf(Play(s, moves).request, Play(s, moves).flight[pid])
    ensures
      var seen := AsSeen(Play(s, moves).request, Play(s, moves).flight[pid]);
      match o
      case AcceptedWith(h) => HeldByTwoThirds(seen, h) && forall other :: HeldByTwoThirds(seen, other) ==> other == h
      case RejectedByQuorum => AllSubmitted(seen) && forall h :: !HeldByTwoThirds(seen, h)
      case FailedByTimeout => false
  {
    PlayKeepsSeenSound(s, moves);
    var end := Play(s, moves);
    var seen := AsSeen(end.request, end.flight[pid]);
    assert SeenIsSound(end.request, end.flight[pid]);
    RowsAreBounded(seen);
    BackedIsTwoThirds(seen, o);
    if o.AcceptedWith? {
      forall other | HeldByTwoThirds(seen, other) ensures other == o.hash {
        TwoThirdsHoldersAgree(seen, other, o.hash);
      }
    }
  }

  lemma TwoThirdsHoldersAgree(t: TextRequest, a: Hash, b: Hash)
    requires WellFormed(t) && t.result.Some? && HeldByTwoThirds(t, a) && HeldByTwoThirds(t, b)
    ensures a == b
  {
    RowsAreBounded(t);
    HoldersAreVotes(t, a);
    HoldersAreVotes(t, b);
    TwoThirdsIsUnique(Ballots(t.result.value.hash, Hashes(t.rows)), TotalNodes(t), a, b);
  }

  // --- The atomic finalizer is one of these runs -------------------------------------

  /** A finalizer that nothing interleaves with has the effect of the one-step finalizer. */
  lemma UndisturbedFinalizerIsAtomic(s: Race, pid: nat)
    requires pid in s.flight && s.flight[pid].Spawned?
    ensures Decidable(s.request) ==>
              Play(s, [Begins(pid), Reads(pid), Writes(pid)]).request == Finalize(s.request)
    ensures !Decidable(s.request) ==> Play(s, [Begins(pid)]).request == Finalize(s.request)
  {
    if Decidable(s.request) {
      var begun := After(s, Begins(pid));
      var ready := After(begun, Reads(pid));
      assert Play(ready, [Writes(pid)]).request == Finalize(s.request) by {
        assert [Writes(pid)][1..] == [];
        assert Play(After(ready, Writes(pid)), []) == After(ready, Writes(pid));
      }
      assert [Reads(pid), Writes(pid)][1..] == [Writes(pid)];
      assert Play(begun, [Reads(pid), Writes(pid)]) == Play(ready, [Writes(pid)]);
      assert [Begins(pid), Reads(pid), Writes(pid)][1..] == [Reads(pid), Writes(pid)];
    } else {
      assert [Begins(pid)][1..] == [];
    }
  }

  lemma PlayTwo(s: Race, one: Move, two: Move)
    requires Enabled(s, one) && Enabled(After(s, one), two)
    ensures Play(s, [one, two]) == After(After(s, one), two)
  {
    assert [one, two][1..] == [two] && [two][1..] == [];
    assert Play(After(s, one), [two]) == Play(After(After(s, one), two), []);
  }

  /** So has a leader's post, up to the finalizer that it starts. */
  lemma UndisturbedPostIsAtomic(s: Race, result: LeaderResult, pid: nat)
    requires pid !in s.drafts && pid !in s.flight
    ensures
      var end := Play(s, [ReadsForPost(pid), Leader(result, pid)]);
      && end.request == LeaderWrite(s.request, result) && end.flight == s.flight[pid := Spawned]
      && end.drafts == s.drafts && end.log == s.log && end.calls == s.calls
  {
    PlayTwo(s, ReadsForPost(pid), Leader(result, pid));
    assert s.drafts[pid := Posting(s.request.nodes)] - {pid} == s.drafts;
  }

  /** So has the confirmation of an awaited key, and an attachment of permits leaves the document as it was. */
  lemma UndisturbedConfirmationIsAtomic(s: Race, pid: nat)
    requires pid !in s.drafts
    ensures s.request.status == PendingStoreKey ==>
              Play(s, [ReadsForConfirm(pid), Confirms(pid)]) == s.(request := ConfirmStoreKey(s.request))
    ensures s.request.status != PendingStoreKey ==> After(s, ReadsForConfirm(pid)) == s.(request := ConfirmStoreKey(s.request))
    ensures Play(s, [ReadsForAttach(pid), Attaches(pid)]) == s
  {
    if s.request.status == PendingStoreKey {
      PlayTwo(s, ReadsForConfirm(pid), Confirms(pid));
      assert s.drafts[pid := Confirming(s.request.result)] - {pid} == s.drafts;
    }
    PlayTwo(s, ReadsForAttach(pid), Attaches(pid));
    assert s.drafts[pid := Attaching(s.request.result)] - {pid} == s.drafts;
  }
}
