/**
 * Claims and polls as they really run. Each of them awaits between reading the node entries
 * and writing them, and a poll again before it fails the whole request. An entry is written
 * by rewriting all entries as they were read, and nothing is read again before a write.
 */
module NodeCalls {
  import opened Prelude
  import opened TextRequests

  type Entries = map<Address, Entry>

  /** Where a claim or a poll stands, with what it has read so far. */
  datatype Call =
    | Claiming(node: Address, at: real, base: Entries)
    | Listed(poller: Address, asOf: real)
    | Late(late: Address)
    | Marking(marked: Address, read: Entries)
    | Marked
    | Doomed

  /** What such a call sees of a request: its entries, and whether its status is an unfinished one. */
  datatype Desk = Desk(nodes: Entries, open: bool, calls: map<nat, Call>)

  datatype NodeStep =
    | ReadsForClaim(node: Address, at: real, id: nat)
    | Claims(id: nat)
    | Lists(poller: Address, asOf: real, id: nat)
    | Checks(id: nat)
    | ReadsForMark(id: nat)
    | Marks(id: nat)
    | Rechecks(id: nat)
    | Fails(id: nat)

  /** Any caller may claim; a poll lists the unfinished requests of the polling node. Each call takes its time before it reads. */
  predicate Can(d: Desk, quorum: seq<Address>, now: real, step: NodeStep) {
    match step
    case ReadsForClaim(_, at, id) => id !in d.calls && at <= now
    case Claims(id) => id in d.calls && d.calls[id].Claiming?
    case Lists(poller, asOf, id) => id !in d.calls && asOf <= now && poller in quorum
    case Checks(id) => id in d.calls && d.calls[id].Listed?
    case ReadsForMark(id) => id in d.calls && d.calls[id].Late?
    case Marks(id) => id in d.calls && d.calls[id].Marking?
    case Rechecks(id) => id in d.calls && d.calls[id].Marked?
    case Fails(id) => id in d.calls && d.calls[id].Doomed?
  }

  predicate OverdueIn(nodes: Entries, node: Address, asOf: real) {
    && node in nodes && nodes[node].status == Claimed && nodes[node].claimedAt.Some?
    && asOf - nodes[node].claimedAt.value > CLAIM_TIMEOUT
  }

  function Do(d: Desk, quorum: seq<Address>, now: real, step: NodeStep): Desk
    requires Can(d, quorum, now, step)
  {
    match step
    case ReadsForClaim(node, at, id) => d.(calls := d.calls[id := Claiming(node, at, d.nodes)])
    case Claims(id) =>
      var c := d.calls[id];
      d.(nodes := c.base[c.node := Entry(Claimed, Some(c.at))], calls := d.calls - {id})
    case Lists(poller, asOf, id) => if d.open then d.(calls := d.calls[id := Listed(poller, asOf)]) else d
    case Checks(id) =>
      var c := d.calls[id];
      if OverdueIn(d.nodes, c.poller, c.asOf) then d.(calls := d.calls[id := Late(c.poller)]) else d.(calls := d.calls - {id})
    case ReadsForMark(id) => d.(calls := d.calls[id := Marking(d.calls[id].late, d.nodes)])
    case Marks(id) =>
      var c := d.calls[id];
      d.(nodes := WithEntryStatus(c.read, c.marked, TimedOut), calls := d.calls[id := Marked])
    case Rechecks(id) =>
      if AllTimedOut(d.nodes) && d.open then d.(calls := d.calls[id := Doomed]) else d.(calls := d.calls - {id})
    case Fails(id) => d.(open := false, calls := d.calls - {id})
  }

  /** Every member has an entry. */
  ghost predicate Covers(quorum: seq<Address>, nodes: Entries) {
    forall a :: a in quorum ==> a in nodes
  }

  ghost predicate CallCovers(quorum: seq<Address>, c: Call) {
    match c
    case Claiming(_, _, base) => Covers(quorum, base)
    case Marking(_, read) => Covers(quorum, read)
    case _ => true
  }

  ghost predicate CallsCover(quorum: seq<Address>, calls: map<nat, Call>) {
    forall id :: id in calls ==> CallCovers(quorum, calls[id])
  }

  /** No entry is ever removed, whatever is overwritten by older ones. */
  lemma StepKeepsCovers(d: Desk, quorum: seq<Address>, now: real, step: NodeStep)
    requires Can(d, quorum, now, step) && Covers(quorum, d.nodes) && CallsCover(quorum, d.calls)
    ensures Covers(quorum, Do(d, quorum, now, step).nodes) && CallsCover(quorum, Do(d, quorum, now, step).calls)
  {
    if step.Claims? || step.Marks? {
      assert CallCovers(quorum, d.calls[step.id]);
    }
  }

  // --- Nothing in between ------------------------------------------------------------

  function DeskOf(t: TextRequest): Desk {
    Desk(t.nodes, Open(t.status), map[])
  }

  /** A call that has returned has no further step. */
  function Next(d: Desk, quorum: seq<Address>, now: real, step: NodeStep): Desk {
    if Can(d, quorum, now, step) then Do(d, quorum, now, step) else d
  }

  function FirstHalf(d: Desk, quorum: seq<Address>, node: Address, now: real, id: nat): Desk {
    Next(Next(d, quorum, now, Lists(node, now, id)), quorum, now, Checks(id))
  }

  function SecondHalf(d: Desk, quorum: seq<Address>, now: real, id: nat): Desk {
    Next(Next(Next(Next(d, quorum, now, ReadsForMark(id)), quorum, now, Marks(id)), quorum, now, Rechecks(id)), quorum, now, Fails(id))
  }

  lemma MarkingInTurn(t: TextRequest, node: Address, now: real, id: nat)
    ensures SecondHalf(DeskOf(t).(calls := map[id := Late(node)]), Quorum(t), now, id) == DeskOf(MarkFailed(t, node))
  {
    var d := DeskOf(t).(calls := map[id := Late(node)]);
    var read := Next(d, Quorum(t), now, ReadsForMark(id));
    assert read.calls[id] == Marking(node, t.nodes);
    var marked := Next(read, Quorum(t), now, Marks(id));
    assert marked.nodes == MarkEntry(t, node).nodes && marked.calls[id] == Marked;
    assert marked.calls - {id} == map[];
  }

  /** A poll that nothing interleaves with does to the entries and the status what the one-step poll does. */
  lemma UndisturbedPollIsAtomic(t: TextRequest, node: Address, now: real, id: nat)
    ensures SecondHalf(FirstHalf(DeskOf(t), Quorum(t), node, now, id), Quorum(t), now, id) == DeskOf(Poll(t, node, now))
  {
    assert Quorum(t)[0] == t.leader && Quorum(t)[1..] == t.verifiers;
    assert node in Quorum(t) <==> AssignedTo(t, node);
    var half := FirstHalf(DeskOf(t), Quorum(t), node, now, id);
    if Open(t.status) && AssignedTo(t, node) && Overdue(t, node, now) {
      assert half == DeskOf(t).(calls := map[id := Late(node)]);
      MarkingInTurn(t, node, now, id);
    } else {
      assert half == DeskOf(t);
    }
  }

  /** So does a claim. */
  lemma UndisturbedClaimIsAtomic(t: TextRequest, node: Address, now: real, id: nat)
    ensures Next(Next(DeskOf(t), Quorum(t), now, ReadsForClaim(node, now, id)), Quorum(t), now, Claims(id)) == DeskOf(Claim(t, node, now))
  {
    var read := Next(DeskOf(t), Quorum(t), now, ReadsForClaim(node, now, id));
    assert read.calls - {id} == map[];
  }
}
