/**
 * Runs showing that the conditions of `RaceOutcomes` and `LostDecisions` are needed: one
 * leader `a`, one verifier `b`, and any hashes.
 */
module RaceLimits {
  import opened Prelude
  import opened HashTally
  import opened TextRequests
  import opened NodeCalls
  import opened QuorumRuns
  import opened FinalizerRace
  import opened RaceOutcomes
  import opened LostDecisions

  predicate Anything(s: Race, m: Move) {
    true
  }

  // --- Building runs move by move ----------------------------------------------------

  ghost predicate Reaches(s: Race, t: Race, ok: (Race, Move) -> bool) {
    exists moves :: Throughout(s, moves, ok) && Play(s, moves) == t
  }

  lemma ReachesItself(s: Race, ok: (Race, Move) -> bool)
    ensures Reaches(s, s, ok)
  {
    assert Throughout(s, [], ok) && Play(s, []) == s;
  }

  lemma {:induction false} ThroughoutSnoc(s: Race, moves: seq<Move>, m: Move, ok: (Race, Move) -> bool)
    requires Throughout(s, moves, ok) && Enabled(Play(s, moves), m) && ok(Play(s, moves), m)
    ensures Throughout(s, moves + [m], ok) && Play(s, moves + [m]) == After(Play(s, moves), m)
    decreases moves
  {
    var more := moves + [m];
    if moves == [] {
      assert more[1..] == [] && Play(After(s, m), []) == After(s, m);
    } else {
      ThroughoutSnoc(After(s, moves[0]), moves[1..], m, ok);
      assert more[0] == moves[0] && more[1..] == moves[1..] + [m];
    }
  }

  lemma ReachesNext(s: Race, t: Race, m: Move, ok: (Race, Move) -> bool)
    requires Reaches(s, t, ok) && Enabled(t, m) && ok(t, m)
    ensures Reaches(s, After(t, m), ok)
  {
    var moves :| Throughout(s, moves, ok) && Play(s, moves) == t;
    ThroughoutSnoc(s, moves, m, ok);
  }

  // --- Two nodes ---------------------------------------------------------------------

  datatype Pair = Pair(a: Address, b: Address)

  ghost predicate Proper(p: Pair) {
    p.a != p.b
  }

  function Start(p: Pair, keyPending: bool): Race {
    Race(Create("t", p.a, [p.b], keyPending), 0.0, map[], [], map[], map[], None)
  }

  function Row(p: Pair, h: Hash): VerdictRow {
    VerdictRow(p.b, true, h, 0)
  }

  function Result(h: Hash): LeaderResult {
    LeaderResult(h, None)
  }

  lemma StartIsFresh(p: Pair, keyPending: bool)
    requires Proper(p)
    ensures Fresh(Start(p, keyPending)) && WellFormed(Start(p, keyPending).request)
  {
    CreateIsWellFormed("t", p.a, [p.b], keyPending);
  }

  /** What the two-node runs look at. */
  ghost predicate At(s: Race, p: Pair, status: Status, result: Option<LeaderResult>, rows: seq<VerdictRow>) {
    && s.request.leader == p.a && s.request.verifiers == [p.b] && s.request.status == status
    && s.request.result == result && s.said == result && s.request.rows == rows && s.request.confidence == 0
    && s.request.nodes.Keys == {p.a, p.b}
  }

  /** Nothing but the document, the finalizers and what is named has changed. */
  ghost predicate Aside(s: Race, t: Race) {
    t.log == s.log && t.now == s.now && t.calls == s.calls && t.drafts == s.drafts
  }

  type Rule = (Race, Move) -> bool

  /** The rule does not restrict the finalizers' own steps. */
  ghost predicate FreesFinalizers(ok: Rule) {
    && (forall s, pid :: ok(s, Begins(pid)))
    && (forall s, pid :: ok(s, Reads(pid)))
    && (forall s, pid :: ok(s, Writes(pid)))
  }

  /** The verifier posts `h` when it has no row, or changes its row. */
  lemma Posts(start: Race, s: Race, ok: Rule, p: Pair, status: Status,
              result: Option<LeaderResult>, rows: seq<VerdictRow>, h: Hash, pid: nat)
    returns (t: Race)
    requires Reaches(start, s, ok) && At(s, p, status, result, rows) && pid !in s.flight
    requires rows == [] || exists g :: rows == [Row(p, g)]
    requires ok(s, Verifier(Row(p, h), pid))
    ensures Reaches(start, t, ok) && At(t, p, status, result, [Row(p, h)]) && Aside(s, t)
    ensures t.flight == s.flight[pid := Spawned] && t.request.nodes == s.request.nodes
  {
    if rows != [] {
      var g :| rows == [Row(p, g)];
      assert RowOf(rows, p.b) == 0;
    }
    assert p.b in s.request.verifiers;
    ReachesNext(start, s, Verifier(Row(p, h), pid), ok);
    t := After(s, Verifier(Row(p, h), pid));
  }

  lemma FirstPostIsOrderly(s: Race, row: VerdictRow, pid: nat)
    requires s.request.rows == []
    ensures KeepsHash(s, Verifier(row, pid)) && Orderly(s, Verifier(row, pid))
  {
  }

  /** The leader's post reads the entries and writes, with nothing in between. */
  lemma Leads(start: Race, s: Race, ok: Rule, p: Pair, status: Status, rows: seq<VerdictRow>, h: Hash, pid: nat)
    returns (t: Race)
    requires Reaches(start, s, ok) && At(s, p, status, None, rows) && pid !in s.flight && pid !in s.drafts
    requires ok(s, ReadsForPost(pid)) && ok(After(s, ReadsForPost(pid)), Leader(Result(h), pid))
    ensures Reaches(start, t, ok) && At(t, p, status, Some(Result(h)), rows) && Aside(s, t)
    ensures t.flight == s.flight[pid := Spawned] && t.request.nodes == WithEntryStatus(s.request.nodes, p.a, Completed)
  {
    ReachesNext(start, s, ReadsForPost(pid), ok);
    var mid := After(s, ReadsForPost(pid));
    ReachesNext(start, mid, Leader(Result(h), pid), ok);
    t := After(mid, Leader(Result(h), pid));
    assert mid.drafts - {pid} == s.drafts;
  }

  /** A finalizer begins on a queued request with a leader hash, or gives up. */
  lemma Begin(start: Race, s: Race, ok: Rule, p: Pair, status: Status, h: Hash, rows: seq<VerdictRow>, pid: nat)
    returns (t: Race)
    requires Reaches(start, s, ok) && FreesFinalizers(ok)
    requires At(s, p, status, Some(Result(h)), rows) && h != "" && pid in s.flight && s.flight[pid] == Spawned
    ensures Reaches(start, t, ok) && At(t, p, status, Some(Result(h)), rows) && Aside(s, t)
    ensures t.flight == if status == Queued then s.flight[pid := Begun(Result(h), 0)] else s.flight - {pid}
  {
    ReachesNext(start, s, Begins(pid), ok);
    t := After(s, Begins(pid));
  }

  lemma Read(start: Race, s: Race, ok: Rule, p: Pair, status: Status, h: Hash, rows: seq<VerdictRow>, pid: nat)
    returns (t: Race)
    requires Reaches(start, s, ok) && FreesFinalizers(ok)
    requires At(s, p, status, Some(Result(h)), rows) && pid in s.flight && s.flight[pid] == Begun(Result(h), 0)
    ensures Reaches(start, t, ok) && At(t, p, status, Some(Result(h)), rows) && Aside(s, t)
    ensures t.flight == s.flight[pid := HasRows(Result(h), 0, rows)]
  {
    ReachesNext(start, s, Reads(pid), ok);
    t := After(s, Reads(pid));
  }

  /** Two ballots are enough to decide: equal ones accept, different ones reject. */
  lemma TwoBallots(g: Hash, h: Hash)
    requires g != "" && h != ""
    ensures g == h ==> Decide(1, g, [h]) == Accept(g, 2, 0)
    ensures g != h ==> Decide(1, g, [h]).Reject?
  {
    AcceptedExactly(1, g, [h], g);
    AcceptedExactly(1, g, [h], h);
    VotesOfBallots(g, [h], g);
    VotesOfBallots(g, [h], h);
    if g == h {
      AcceptedCounts(1, g, [h]);
    } else if Decide(1, g, [h]).Accept? {
      var w := Decide(1, g, [h]).hash;
      AcceptedExactly(1, g, [h], w);
      VotesOfBallots(g, [h], w);
    }
  }

  function Verdict(g: Hash, h: Hash): Outcome {
    if g == h then AcceptedWith(g) else RejectedByQuorum
  }

  lemma Write(start: Race, s: Race, ok: Rule, p: Pair, g: Hash, h: Hash, pid: nat)
    returns (t: Race)
    requires Reaches(start, s, ok) && FreesFinalizers(ok)
    requires s.request.verifiers == [p.b] && g != "" && h != ""
    requires pid in s.flight && s.flight[pid] == HasRows(Result(g), 0, [Row(p, h)])
    ensures Reaches(start, t, ok) && t.request.verifiers == [p.b]
    ensures t.log == s.log + [Verdict(g, h)] && t.flight == s.flight - {pid} && t.calls == s.calls && t.drafts == s.drafts
    ensures t.request.status == if g == h then Accepted else Rejected
  {
    assert Hashes([Row(p, h)]) == [h];
    TwoBallots(g, h);
    ReachesNext(start, s, Writes(pid), ok);
    t := After(s, Writes(pid));
  }

  // --- The runs ----------------------------------------------------------------------

  /** The rules that the runs below keep to. */
  ghost predicate AllowsFirstPosts(ok: Rule) {
    FreesFinalizers(ok) && forall s, m :: Orderly(s, m) ==> ok(s, m)
  }

  /** No other post is under way. */
  ghost predicate Unposted(s: Race) {
    s.calls == map[] && forall pid :: pid in s.drafts ==> !s.drafts[pid].Posting?
  }

  /** Both nodes post: the verifier with finalizer 0, the leader with finalizer 1. */
  lemma BothPost(start: Race, s: Race, ok: Rule, p: Pair, status: Status, g: Hash, h: Hash)
    returns (t: Race)
    requires Reaches(start, s, ok) && AllowsFirstPosts(ok) && At(s, p, status, None, []) && Unposted(s)
    requires s.flight == map[] && 1 !in s.drafts
    ensures Reaches(start, t, ok) && At(t, p, status, Some(Result(g)), [Row(p, h)]) && Aside(s, t)
    ensures t.flight == map[0 := Spawned][1 := Spawned]
  {
    FirstPostIsOrderly(s, Row(p, h), 0);
    t := Posts(start, s, ok, p, status, None, [], h, 0);
    assert Orderly(t, ReadsForPost(1)) && Orderly(After(t, ReadsForPost(1)), Leader(Result(g), 1));
    t := Leads(start, t, ok, p, status, [Row(p, h)], g, 1);
  }

  lemma BothSubmitted(p: Pair, keyPending: bool, g: Hash, h: Hash, ok: Rule) returns (s: Race)
    requires Proper(p) && g != "" && h != "" && AllowsFirstPosts(ok)
    ensures Reaches(Start(p, keyPending), s, ok)
    ensures At(s, p, if keyPending then PendingStoreKey else Queued, Some(Result(g)), [Row(p, h)]) && Aside(Start(p, keyPending), s)
    ensures s.flight == map[0 := Spawned][1 := Spawned]
  {
    var start := Start(p, keyPending);
    ReachesItself(start, ok);
    s := BothPost(start, start, ok, p, if keyPending then PendingStoreKey else Queued, g, h);
  }

  /** Both nodes post, and the leader's finalizer reads both posts. */
  lemma BothVoted(p: Pair, g: Hash, h: Hash, ok: Rule) returns (s: Race)
    requires Proper(p) && g != "" && h != "" && AllowsFirstPosts(ok)
    ensures Reaches(Start(p, false), s, ok)
    ensures At(s, p, Queued, Some(Result(g)), [Row(p, h)]) && Aside(Start(p, false), s)
    ensures s.flight == map[0 := Spawned][1 := HasRows(Result(g), 0, [Row(p, h)])]
  {
    var start := Start(p, false);
    s := BothSubmitted(p, false, g, h, ok);
    s := Begin(start, s, ok, p, Queued, g, [Row(p, h)], 1);
    s := Read(start, s, ok, p, Queued, g, [Row(p, h)], 1);
  }

  /**
   * A verifier that changes its hash can make two racing finalizers write different
   * decisions: the one that read the first verdict accepts, the other rejects.
   */
  lemma ChangedHashBreaksAgreement(p: Pair, g: Hash, h: Hash) returns (s: Race)
    requires Proper(p) && g != "" && h != "" && g != h
    ensures Fresh(Start(p, false)) && WellFormed(Start(p, false).request)
    ensures Reaches(Start(p, false), s, Anything)
    ensures s.log == [AcceptedWith(g), RejectedByQuorum] && s.request.status == Rejected
  {
    StartIsFresh(p, false);
    s := TwoSnapshots(p, g, h);
    s := Write(Start(p, false), s, Anything, p, g, g, 1);
    s := Write(Start(p, false), s, Anything, p, g, h, 2);
  }

  /** The two snapshots of that run. */
  lemma TwoSnapshots(p: Pair, g: Hash, h: Hash) returns (s: Race)
    requires Proper(p) && g != "" && h != ""
    ensures Reaches(Start(p, false), s, Anything) && s.log == [] && s.request.verifiers == [p.b]
    ensures 1 in s.flight && s.flight[1] == HasRows(Result(g), 0, [Row(p, g)])
    ensures 2 in s.flight && s.flight[2] == HasRows(Result(g), 0, [Row(p, h)])
  {
    var start := Start(p, false);
    s := BothVoted(p, g, g, Anything);
    s := Posts(start, s, Anything, p, Queued, Some(Result(g)), [Row(p, g)], h, 2);
    s := Begin(start, s, Anything, p, Queued, g, [Row(p, h)], 2);
    s := Read(start, s, Anything, p, Queued, g, [Row(p, h)], 2);
  }

  /** Finalizers that agree still write, and notify, twice. */
  lemma AgreeingFinalizersWriteTwice(p: Pair, g: Hash, h: Hash) returns (s: Race)
    requires Proper(p) && g != "" && h != ""
    ensures Fresh(Start(p, false)) && WellFormed(Start(p, false).request)
    ensures Reaches(Start(p, false), s, Orderly)
    ensures s.log == [Verdict(g, h), Verdict(g, h)]
  {
    StartIsFresh(p, false);
    s := EqualSnapshots(p, g, h);
    s := Write(Start(p, false), s, Orderly, p, g, h, 1);
    s := Write(Start(p, false), s, Orderly, p, g, h, 0);
  }

  lemma EqualSnapshots(p: Pair, g: Hash, h: Hash) returns (s: Race)
    requires Proper(p) && g != "" && h != ""
    ensures Reaches(Start(p, false), s, Orderly) && s.log == [] && s.request.verifiers == [p.b]
    ensures 1 in s.flight && s.flight[1] == HasRows(Result(g), 0, [Row(p, h)])
    ensures 0 in s.flight && s.flight[0] == HasRows(Result(g), 0, [Row(p, h)])
  {
    var start := Start(p, false);
    s := BothVoted(p, g, h, Orderly);
    s := Begin(start, s, Orderly, p, Queued, g, [Row(p, h)], 0);
    s := Read(start, s, Orderly, p, Queued, g, [Row(p, h)], 0);
  }

  // --- Timeouts ----------------------------------------------------------------------

  /** Steps of claims and polls change entries and calls only. */
  ghost predicate EntriesOnly(s: Race, t: Race) {
    && t.request == s.request.(nodes := t.request.nodes)
    && t.flight == s.flight && t.log == s.log && t.now == s.now && t.drafts == s.drafts && t.said == s.said
  }

  lemma Step(start: Race, s: Race, ok: Rule, step: NodeStep) returns (t: Race)
    requires Reaches(start, s, ok) && Enabled(s, Node(step)) && ok(s, Node(step)) && !step.Fails?
    ensures Reaches(start, t, ok) && t == AfterNode(s, step) && EntriesOnly(s, t)
  {
    ReachesNext(start, s, Node(step), ok);
    t := After(s, Node(step));
  }

  /** The rule leaves claims and polls alone as long as the leader has said no more. */
  ghost predicate FreesNodes(ok: Rule, said: Option<LeaderResult>) {
    forall r: Race, step: NodeStep :: r.said == said ==> ok(r, Node(step))
  }

  lemma ClaimsInTurn(start: Race, s: Race, ok: Rule, node: Address) returns (t: Race)
    requires Reaches(start, s, ok) && s.calls == map[] && s.now == 0.0
    requires FreesNodes(ok, s.said)
    ensures Reaches(start, t, ok)
    ensures t == s.(request := s.request.(nodes := s.request.nodes[node := Entry(Claimed, Some(0.0))]))
  {
    t := Step(start, s, ok, ReadsForClaim(node, 0.0, 0));
    assert t == s.(calls := map[0 := Claiming(node, 0.0, s.request.nodes)]);
    t := Step(start, t, ok, NodeStep.Claims(0));
    assert t.calls == map[];
  }

  lemma ListsAndChecks(start: Race, s: Race, ok: Rule, node: Address) returns (t: Race)
    requires Reaches(start, s, ok) && s.calls == map[] && s.now == 400.0 && node in Quorum(s.request) && Open(s.request.status)
    requires node in s.request.nodes && s.request.nodes[node] == Entry(Claimed, Some(0.0)) && FreesNodes(ok, s.said)
    ensures Reaches(start, t, ok) && t == s.(calls := map[0 := Late(node)])
  {
    t := Step(start, s, ok, Lists(node, 400.0, 0));
    assert t == s.(calls := map[0 := Listed(node, 400.0)]);
    CheckedIsLate(t, node);
    t := Step(start, t, ok, Checks(0));
  }

  lemma CheckedIsLate(s: Race, node: Address)
    requires s.calls == map[0 := Listed(node, 400.0)]
    requires node in s.request.nodes && s.request.nodes[node] == Entry(Claimed, Some(0.0))
    ensures Enabled(s, Node(Checks(0))) && AfterNode(s, Checks(0)) == s.(calls := map[0 := Late(node)])
  {
    assert AfterNode(s, Checks(0)).calls == map[0 := Late(node)];
  }

  lemma MarkingInTurn(s: Race, node: Address)
    requires s.calls == map[0 := Late(node)] && node in s.request.nodes && s.request.nodes[node] == Entry(Claimed, Some(0.0))
    ensures
      var mid := s.(calls := map[0 := Marking(node, s.request.nodes)]);
      && Enabled(s, Node(ReadsForMark(0))) && AfterNode(s, ReadsForMark(0)) == mid
      && Enabled(mid, Node(Marks(0)))
      && AfterNode(mid, Marks(0)) ==
           s.(request := s.request.(nodes := s.request.nodes[node := Entry(TimedOut, Some(0.0))]), calls := map[0 := Marked])
  {
    assert AfterNode(s, ReadsForMark(0)).calls == map[0 := Marking(node, s.request.nodes)];
    var mid := s.(calls := map[0 := Marking(node, s.request.nodes)]);
    assert AfterNode(mid, Marks(0)).calls == map[0 := Marked];
  }

  lemma RechecksAll(s: Race)
    requires s.calls == map[0 := Marked] && AllTimedOut(s.request.nodes) && Open(s.request.status)
    ensures Enabled(s, Node(Rechecks(0))) && AfterNode(s, Rechecks(0)) == s.(calls := map[0 := Doomed])
  {
    assert AfterNode(s, Rechecks(0)).calls == map[0 := Doomed];
  }

  lemma ReadsAndMarks(start: Race, s: Race, ok: Rule, node: Address) returns (t: Race)
    requires Reaches(start, s, ok) && s.calls == map[0 := Late(node)] && FreesNodes(ok, s.said)
    requires node in s.request.nodes && s.request.nodes[node] == Entry(Claimed, Some(0.0))
    ensures Reaches(start, t, ok)
    ensures t == s.(request := s.request.(nodes := s.request.nodes[node := Entry(TimedOut, Some(0.0))]), calls := map[0 := Marked])
  {
    MarkingInTurn(s, node);
    t := Step(start, s, ok, ReadsForMark(0));
    t := Step(start, t, ok, Marks(0));
  }

  /** A poll finds its node's claim overdue and marks it. */
  lemma PollMarks(start: Race, s: Race, ok: Rule, node: Address) returns (t: Race)
    requires Reaches(start, s, ok) && s.calls == map[] && s.now == 400.0 && node in Quorum(s.request) && Open(s.request.status)
    requires node in s.request.nodes && s.request.nodes[node] == Entry(Claimed, Some(0.0)) && FreesNodes(ok, s.said)
    ensures Reaches(start, t, ok)
    ensures t == s.(request := s.request.(nodes := s.request.nodes[node := Entry(TimedOut, Some(0.0))]), calls := map[0 := Marked])
  {
    t := ListsAndChecks(start, s, ok, node);
    t := ReadsAndMarks(start, t, ok, node);
  }

  lemma Waiting(start: Race, s: Race, ok: Rule) returns (t: Race)
    requires Reaches(start, s, ok) && s.now == 0.0 && ok(s, Move.Waits(400.0))
    ensures Reaches(start, t, ok) && t == s.(now := 400.0)
  {
    ReachesNext(start, s, Move.Waits(400.0), ok);
    t := After(s, Move.Waits(400.0));
  }

  function BothClaimed(p: Pair): Entries {
    map[p.a := Entry(Claimed, Some(0.0)), p.b := Entry(Claimed, Some(0.0))]
  }

  lemma BothClaim(start: Race, s: Race, ok: Rule, p: Pair) returns (t: Race)
    requires Proper(p) && Reaches(start, s, ok) && s.request.nodes.Keys == {p.a, p.b} && s.calls == map[] && s.now == 0.0
    requires FreesNodes(ok, s.said) && forall r: Race :: ok(r, Move.Waits(400.0))
    ensures Reaches(start, t, ok) && t == s.(request := s.request.(nodes := BothClaimed(p)), now := 400.0)
  {
    t := ClaimsInTurn(start, s, ok, p.a);
    t := ClaimsInTurn(start, t, ok, p.b);
    assert t.request.nodes == BothClaimed(p);
    t := Waiting(start, t, ok);
  }

  lemma FirstRunsOut(start: Race, s: Race, ok: Rule, p: Pair) returns (t: Race)
    requires Proper(p) && Reaches(start, s, ok) && s.request.nodes == BothClaimed(p) && s.calls == map[] && s.now == 400.0
    requires FreesNodes(ok, s.said) && p.a in Quorum(s.request) && Open(s.request.status)
    ensures Reaches(start, t, ok)
    ensures t == s.(request := s.request.(nodes := BothClaimed(p)[p.a := Entry(TimedOut, Some(0.0))]))
  {
    t := PollMarks(start, s, ok, p.a);
    assert t.request.nodes[p.b].status == Claimed;
    t := Step(start, t, ok, Rechecks(0));
    assert t.calls == map[];
  }

  lemma SecondRunsOut(start: Race, s: Race, ok: Rule, p: Pair) returns (t: Race)
    requires Proper(p) && Reaches(start, s, ok) && s.calls == map[] && s.now == 400.0
    requires s.request.nodes == BothClaimed(p)[p.a := Entry(TimedOut, Some(0.0))]
    requires FreesNodes(ok, s.said) && p.b in Quorum(s.request) && Open(s.request.status)
    ensures Reaches(start, t, ok) && EntriesOnly(s, t) && t.calls == map[0 := Doomed] && t.request.nodes.Keys == {p.a, p.b}
  {
    t := PollMarks(start, s, ok, p.b);
    assert t.request.nodes.Keys == {p.a, p.b} && AllTimedOut(t.request.nodes);
    RechecksAll(t);
    t := Step(start, t, ok, Rechecks(0));
  }

  /** Both nodes claim, both claims run out, and the second poll finds every entry failed. */
  lemma BothRunOut(start: Race, s: Race, ok: Rule, p: Pair, result: Option<LeaderResult>, rows: seq<VerdictRow>)
    returns (t: Race)
    requires Proper(p) && Reaches(start, s, ok) && At(s, p, Queued, result, rows) && s.calls == map[] && s.now == 0.0
    requires FreesNodes(ok, s.said) && forall r: Race :: ok(r, Move.Waits(400.0))
    ensures Reaches(start, t, ok) && At(t, p, Queued, result, rows) && t.calls == map[0 := Doomed]
    ensures t.flight == s.flight && t.log == s.log && t.drafts == s.drafts
  {
    assert Quorum(s.request) == [p.a, p.b];
    t := BothClaim(start, s, ok, p);
    assert p.a in Quorum(t.request);
    t := FirstRunsOut(start, t, ok, p);
    assert p.b in Quorum(t.request);
    t := SecondRunsOut(start, t, ok, p);
  }

  lemma Fail(start: Race, s: Race, ok: Rule, p: Pair) returns (t: Race)
    requires Reaches(start, s, ok) && s.calls == map[0 := Doomed] && ok(s, Node(Fails(0))) && s.request.verifiers == [p.b]
    ensures Reaches(start, t, ok) && t.log == s.log + [FailedByTimeout] && t.flight == s.flight && t.calls == map[]
    ensures t.request.verifiers == [p.b] && t.request.status == Failed && t.drafts == s.drafts
  {
    ReachesNext(start, s, Node(Fails(0)), ok);
    t := After(s, Node(Fails(0)));
    assert s.calls - {0} == map[];
  }

  /**
   * If the leader claims again after submitting, a request can be failed by timeouts and
   * then still be decided by a finalizer that was under way, although no node ever changed
   * its hash.
   */
  lemma ReclaimLetsTimeoutPrecedeDecision(p: Pair, g: Hash, h: Hash) returns (s: Race)
    requires Proper(p) && g != "" && h != ""
    ensures Fresh(Start(p, false)) && WellFormed(Start(p, false).request)
    ensures Reaches(Start(p, false), s, KeepsHash)
    ensures s.log == [FailedByTimeout, Verdict(g, h)]
  {
    StartIsFresh(p, false);
    var start := Start(p, false);
    s := BothVoted(p, g, h, KeepsHash);
    s := BothRunOut(start, s, KeepsHash, p, Some(Result(g)), [Row(p, h)]);
    s := Fail(start, s, KeepsHash, p);
    s := Write(start, s, KeepsHash, p, g, h, 1);
  }

  /** Everything that `Orderly` asks for, except that the leader's post may fall into a poll. */
  predicate NeverReclaims(s: Race, m: Move) {
    Undisturbed(s, m) && (m.Node? && m.step.ReadsForClaim? && m.step.node == s.request.leader ==> s.said.None?)
  }

  lemma FirstLeadIsPunctual(s: Race, h: Hash, pid: nat)
    requires s.said.None? && pid !in s.drafts && pid !in s.flight
    ensures NeverReclaims(s, ReadsForPost(pid)) && NeverReclaims(After(s, ReadsForPost(pid)), Leader(Result(h), pid))
  {
  }

  lemma FinalizersAreFree()
    ensures FreesFinalizers(NeverReclaims) && (forall r: Race :: NeverReclaims(r, Move.Waits(400.0)))
  {
  }

  /** A poll is about to fail the request when the leader posts, and its finalizer reads both posts. */
  lemma PostsWithinPoll(p: Pair, h: Hash) returns (s: Race)
    requires Proper(p) && h != ""
    ensures Reaches(Start(p, false), s, NeverReclaims) && s.log == [] && s.calls == map[0 := Doomed] && s.drafts == map[]
    ensures s.flight == map[0 := Spawned][1 := HasRows(Result(h), 0, [Row(p, h)])] && s.request.verifiers == [p.b]
  {
    var start := Start(p, false);
    s := RunsOutUnposted(p, h);
    FirstLeadIsPunctual(s, h, 1);
    FinalizersAreFree();
    s := Leads(start, s, NeverReclaims, p, Queued, [Row(p, h)], h, 1);
    s := Begin(start, s, NeverReclaims, p, Queued, h, [Row(p, h)], 1);
    s := Read(start, s, NeverReclaims, p, Queued, h, [Row(p, h)], 1);
  }

  lemma RunsOutUnposted(p: Pair, h: Hash) returns (s: Race)
    requires Proper(p) && h != ""
    ensures Reaches(Start(p, false), s, NeverReclaims) && At(s, p, Queued, None, [Row(p, h)])
    ensures s.log == [] && s.calls == map[0 := Doomed] && s.drafts == map[] && s.flight == map[0 := Spawned]
  {
    var start := Start(p, false);
    ReachesItself(start, NeverReclaims);
    FirstPostIsOrderly(start, Row(p, h), 0);
    s := Posts(start, start, NeverReclaims, p, Queued, None, [], h, 0);
    s := BothRunOut(start, s, NeverReclaims, p, None, [Row(p, h)]);
  }

  /**
   * Even if the leader never claims again: its post falls between a poll's last look at the
   * entries and its write, and the request gets a timeout and an acceptance, in either order.
   */
  lemma PostWithinPollCrossesOutcomes(p: Pair, h: Hash, decisionFirst: bool) returns (s: Race)
    requires Proper(p) && h != ""
    ensures Fresh(Start(p, false)) && WellFormed(Start(p, false).request)
    ensures Reaches(Start(p, false), s, NeverReclaims) && s.flight == map[0 := Spawned] && s.calls == map[]
    ensures decisionFirst ==> s.log == [AcceptedWith(h), FailedByTimeout] && s.request.status == Failed
    ensures !decisionFirst ==> s.log == [FailedByTimeout, AcceptedWith(h)] && s.request.status == Accepted
  {
    StartIsFresh(p, false);
    var start := Start(p, false);
    FinalizersAreFree();
    s := PostsWithinPoll(p, h);
    s := BothWrite(start, s, p, h, decisionFirst);
  }

  lemma BothWrite(start: Race, s: Race, p: Pair, h: Hash, decisionFirst: bool) returns (t: Race)
    requires Reaches(start, s, NeverReclaims) && FreesFinalizers(NeverReclaims) && h != ""
    requires s.log == [] && s.calls == map[0 := Doomed] && s.request.verifiers == [p.b]
    requires s.flight == map[0 := Spawned][1 := HasRows(Result(h), 0, [Row(p, h)])]
    ensures Reaches(start, t, NeverReclaims) && t.flight == map[0 := Spawned] && t.calls == map[]
    ensures decisionFirst ==> t.log == [AcceptedWith(h), FailedByTimeout] && t.request.status == Failed
    ensures !decisionFirst ==> t.log == [FailedByTimeout, AcceptedWith(h)] && t.request.status == Accepted
  {
    assert s.flight - {1} == map[0 := Spawned];
    if decisionFirst {
      t := Write(start, s, NeverReclaims, p, h, h, 1);
      t := Fail(start, t, NeverReclaims, p);
    } else {
      t := Fail(start, s, NeverReclaims, p);
      t := Write(start, t, NeverReclaims, p, h, h, 1);
    }
  }

  // --- Key confirmations -------------------------------------------------------------

  lemma ReadsKey(start: Race, s: Race, ok: Rule, p: Pair, pid: nat) returns (t: Race)
    requires Reaches(start, s, ok) && At(s, p, PendingStoreKey, None, []) && pid !in s.drafts && ok(s, ReadsForConfirm(pid))
    ensures Reaches(start, t, ok) && t == s.(drafts := s.drafts[pid := Confirming(None)])
  {
    ReachesNext(start, s, ReadsForConfirm(pid), ok);
    t := After(s, ReadsForConfirm(pid));
  }

  lemma Confirm(start: Race, s: Race, ok: Rule, pid: nat) returns (t: Race)
    requires Reaches(start, s, ok) && pid in s.drafts && s.drafts[pid].Confirming? && ok(s, Confirms(pid))
    ensures Reaches(start, t, ok) && t == s.(request := ConfirmOver(s.request, s.drafts[pid].held), drafts := s.drafts - {pid})
  {
    ReachesNext(start, s, Confirms(pid), ok);
    t := After(s, Confirms(pid));
  }

  /** A finalizer gives up on a request without a result. */
  lemma GivesUp(start: Race, s: Race, ok: Rule, pid: nat) returns (t: Race)
    requires Reaches(start, s, ok) && FreesFinalizers(ok) && s.request.result.None? && pid in s.flight && s.flight[pid] == Spawned
    ensures Reaches(start, t, ok) && t == s.(flight := s.flight - {pid})
  {
    ReachesNext(start, s, Begins(pid), ok);
    t := After(s, Begins(pid));
  }

  /**
   * If the prompt key is confirmed only after every node has submitted and every finalizer
   * has given up, the request stays queued although two thirds hold one hash: nobody decides
   * it any more.
   */
  lemma LateConfirmationLosesDecision(p: Pair, h: Hash) returns (s: Race)
    requires Proper(p) && h != ""
    ensures Fresh(Start(p, true)) && WellFormed(Start(p, true).request)
    ensures Reaches(Start(p, true), s, Orderly)
    ensures s.request.status == Queued && s.log == [] && s.flight == map[]
    ensures AllSubmitted(s.request) && HeldByTwoThirds(s.request, h)
  {
    StartIsFresh(p, true);
    var start := Start(p, true);
    s := BothGiveUp(p, h);
    s := ReadsPresentKey(start, s, Orderly);
    s := Confirm(start, s, Orderly, 0);
    BothHold(s, p, h);
  }

  lemma ReadsPresentKey(start: Race, s: Race, ok: Rule) returns (t: Race)
    requires Reaches(start, s, ok) && s.request.status == PendingStoreKey && s.drafts == map[] && ok(s, ReadsForConfirm(0))
    ensures Reaches(start, t, ok) && t == s.(drafts := map[0 := Confirming(s.request.result)])
  {
    ReachesNext(start, s, ReadsForConfirm(0), ok);
    t := After(s, ReadsForConfirm(0));
  }

  lemma BothGiveUp(p: Pair, h: Hash) returns (s: Race)
    requires Proper(p) && h != ""
    ensures Reaches(Start(p, true), s, Orderly) && At(s, p, PendingStoreKey, Some(Result(h)), [Row(p, h)])
    ensures Aside(Start(p, true), s) && s.flight == map[]
  {
    var start := Start(p, true);
    s := BothSubmitted(p, true, h, h, Orderly);
    s := Begin(start, s, Orderly, p, PendingStoreKey, h, [Row(p, h)], 0);
    s := Begin(start, s, Orderly, p, PendingStoreKey, h, [Row(p, h)], 1);
    assert s.flight == map[];
  }

  lemma BothHold(s: Race, p: Pair, h: Hash)
    requires Proper(p) && At(s, p, Queued, Some(Result(h)), [Row(p, h)]) && h != ""
    ensures HeldByTwoThirds(s.request, h)
  {
    var t := s.request;
    assert Quorum(t) == [p.a, p.b];
    assert Voters(t.rows) == [p.b];
    assert WellFormed(t);
    assert Hashes(t.rows) == [h];
    TwoBallots(h, h);
    HeldIsAccepted(t, h);
  }

  /**
   * If the leader posts between a confirmation's read and its write, the confirmation puts
   * the metadata without the result back: finalizers are under way after it, `mid`, but find
   * no result, and the request is never decided unless the leader posts again.
   */
  lemma ConfirmationErasesResult(p: Pair, h: Hash) returns (mid: Race, s: Race)
    requires Proper(p) && h != ""
    ensures Fresh(Start(p, true)) && WellFormed(Start(p, true).request)
    ensures Reaches(Start(p, true), mid, NeverReopens) && Watching(mid) && Reaches(mid, s, NeverReopens)
    ensures s.request.status == Queued && s.log == [] && s.flight == map[] && Forgotten(s)
    ensures AllSubmitted(AsPosted(s)) && HeldByTwoThirds(AsPosted(s), h)
  {
    StartIsFresh(p, true);
    mid := ConfirmsStale(p, h);
    s := FindNothing(mid);
    BothHold(s.(request := AsPosted(s)), p, h);
  }

  lemma ConfirmsStale(p: Pair, h: Hash) returns (mid: Race)
    requires Proper(p) && h != ""
    ensures Reaches(Start(p, true), mid, NeverReopens) && Watching(mid) && mid.log == [] && mid.drafts == map[]
    ensures mid.request.result.None? && mid.request.status == Queued && mid.flight == map[0 := Spawned][1 := Spawned]
    ensures At(mid.(request := AsPosted(mid)), p, Queued, Some(Result(h)), [Row(p, h)])
  {
    var start := Start(p, true);
    ReachesItself(start, NeverReopens);
    mid := ReadsKey(start, start, NeverReopens, p, 0);
    mid := BothPost(start, mid, NeverReopens, p, PendingStoreKey, h, h);
    mid := ConfirmsOverPosts(start, mid, p, h);
  }

  lemma ConfirmsOverPosts(start: Race, s: Race, p: Pair, h: Hash) returns (mid: Race)
    requires Reaches(start, s, NeverReopens) && At(s, p, PendingStoreKey, Some(Result(h)), [Row(p, h)]) && s.log == []
    requires s.drafts == map[0 := Confirming(None)] && s.flight == map[0 := Spawned][1 := Spawned]
    ensures Reaches(start, mid, NeverReopens) && Watching(mid) && mid.log == [] && mid.drafts == map[]
    ensures mid.request.result.None? && mid.request.status == Queued && mid.flight == s.flight
    ensures At(mid.(request := AsPosted(mid)), p, Queued, Some(Result(h)), [Row(p, h)])
  {
    assert s.drafts - {0} == map[];
    mid := Confirm(start, s, NeverReopens, 0);
    assert 0 in mid.flight;
  }

  lemma FindNothing(mid: Race) returns (s: Race)
    requires mid.request.result.None? && mid.flight == map[0 := Spawned][1 := Spawned] && mid.drafts == map[]
    ensures Reaches(mid, s, NeverReopens) && s == mid.(flight := map[]) && Forgotten(s)
  {
    ReachesItself(mid, NeverReopens);
    s := GivesUp(mid, mid, NeverReopens, 0);
    s := GivesUp(mid, s, NeverReopens, 1);
    assert s.flight == map[];
  }

  /**
   * If two confirmations read the awaited key before either writes, the second one puts an
   * accepted request back to queued, without its result.
   */
  lemma SecondConfirmationReopens(p: Pair, h: Hash) returns (s: Race)
    requires Proper(p) && h != ""
    ensures Fresh(Start(p, true)) && WellFormed(Start(p, true).request)
    ensures Reaches(Start(p, true), s, KeepsHash)
    ensures s.log == [AcceptedWith(h)] && s.request.status == Queued && s.request.result.None?
  {
    StartIsFresh(p, true);
    var start := Start(p, true);
    ReachesItself(start, KeepsHash);
    s := ReadsKey(start, start, KeepsHash, p, 0);
    s := ReadsKey(start, s, KeepsHash, p, 2);
    s := Confirm(start, s, KeepsHash, 0);
    s := BothAccepted(start, s, p, h);
    s := Confirm(start, s, KeepsHash, 2);
  }

  /** Both nodes post, and the leader's finalizer accepts. */
  lemma BothAccepted(start: Race, s: Race, p: Pair, h: Hash) returns (t: Race)
    requires Reaches(start, s, KeepsHash) && At(s, p, Queued, None, []) && Unposted(s) && h != ""
    requires s.flight == map[] && 1 !in s.drafts && s.log == []
    ensures Reaches(start, t, KeepsHash) && t.log == [AcceptedWith(h)] && t.drafts == s.drafts
  {
    t := BothPost(start, s, KeepsHash, p, Queued, h, h);
    t := Begin(start, t, KeepsHash, p, Queued, h, [Row(p, h)], 1);
    t := Read(start, t, KeepsHash, p, Queued, h, [Row(p, h)], 1);
    t := Write(start, t, KeepsHash, p, h, h, 1);
  }

  // --- The end of a creation ---------------------------------------------------------

  /** Stored as queued, while its creation is still waiting for the chain. */
  function BeingStored(p: Pair, keyPending: bool): Race {
    Start(p, false).(drafts := map[2 := Opening(keyPending)])
  }

  /**
   * Nodes that find a request before its creation has returned can have it decided, and the
   * creation then puts its first status back over the acceptance, and its metadata over the
   * leader's result.
   */
  lemma CreationUndoesDecision(p: Pair, h: Hash, keyPending: bool) returns (s: Race)
    requires Proper(p) && h != ""
    ensures Fresh(BeingStored(p, keyPending)) && WellFormed(BeingStored(p, keyPending).request)
    ensures Reaches(BeingStored(p, keyPending), s, KeepsHash)
    ensures s.log == [AcceptedWith(h)] && s.request.result.None?
    ensures s.request.status == if keyPending then PendingStoreKey else Queued
  {
    StartIsFresh(p, false);
    var start := BeingStored(p, keyPending);
    ReachesItself(start, KeepsHash);
    s := BothAccepted(start, start, p, h);
    ReachesNext(start, s, Opens(2), KeepsHash);
    s := After(s, Opens(2));
  }
}
