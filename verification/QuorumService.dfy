/**
 * The text half of the quorum service as an object over its table of requests. Each method
 * is one uninterrupted call; its effect on a request is the matching function of
 * `TextRequests`, so the theorems about runs speak about these methods.
 */
module QuorumService {
  import opened Prelude
  import opened HashTally
  import opened TextRequests

  datatype ServiceError = UnknownTask | NotAVerifier | BadVerdict | MissingLeaderHash

  /** What the payment service is told. */
  datatype NoticeKind = Success | Rejection | Timeout

  datatype Notice = Notice(task: string, kind: NoticeKind, hash: Option<Hash>)

  /** The notice that one uninterrupted call sends about a request it changed. */
  function Notices(before: TextRequest, after: TextRequest): seq<Notice> {
    if before.status == after.status then []
    else
      match after.status
      case Accepted => [Notice(after.taskId, Success, after.commitment)]
      case Rejected => [Notice(after.taskId, Rejection, None)]
      case Failed => [Notice(after.taskId, Timeout, None)]
      case _ => []
  }

  /**
   * Exactly what the payment service is to be told when a finalizer has seen this request: a
   * success with the hash that two thirds of the nodes hold, a rejection once everybody has
   * voted and no hash has two thirds, and nothing otherwise.
   */
  ghost predicate Announces(t: TextRequest, sent: seq<Notice>) {
    if t.status == Queued && t.result.Some? && t.result.value.hash != "" then
      var ballots, total := Ballots(t.result.value.hash, Hashes(t.rows)), |t.verifiers| + 1;
      && (forall h :: sent == [Notice(t.taskId, Success, Some(h))] <==> TwoThirds(ballots, total, h))
      && (sent == [Notice(t.taskId, Rejection, None)] <==> |t.rows| == |t.verifiers| && forall h :: !TwoThirds(ballots, total, h))
      && (sent == [] <==> |t.rows| < |t.verifiers| && forall h :: !TwoThirds(ballots, total, h))
    else sent == []
  }

  /** A finalizer's notices are what it is to announce. */
  lemma NoticesAnnounce(t: TextRequest)
    requires |t.rows| <= |t.verifiers|
    ensures Announces(t, Notices(t, Finalize(t)))
  {
    if Decidable(t) {
      FinalizedByVotes(t);
      var ballots, total := Ballots(t.result.value.hash, Hashes(t.rows)), |t.verifiers| + 1;
      assert Finalize(t).status == Accepted ==> TwoThirds(ballots, total, Finalize(t).commitment.value);
    }
  }

  /** There is only one thing to announce, the decision that counting makes. */
  lemma AnnouncedIsDecided(t: TextRequest, sent: seq<Notice>)
    requires Decidable(t) && |t.rows| <= |t.verifiers| && Announces(t, sent)
    ensures sent == match Decide(|t.verifiers|, t.result.value.hash, Hashes(t.rows))
                    case Undecided => []
                    case Accept(h, _, _) => [Notice(t.taskId, Success, Some(h))]
                    case Reject(_, _) => [Notice(t.taskId, Rejection, None)]
  {
    var leaderHash, hashes, n := t.result.value.hash, Hashes(t.rows), |t.verifiers|;
    var ballots, total := Ballots(leaderHash, hashes), n + 1;
    var d := Decide(n, leaderHash, hashes);
    DecideMeetsRule(n, leaderHash, hashes);
    if d.Accept? {
      AcceptedExactly(n, leaderHash, hashes, d.hash);
      assert TwoThirds(ballots, total, d.hash);
    } else {
      forall h ensures !TwoThirds(ballots, total, h) {
        AcceptedExactly(n, leaderHash, hashes, h);
      }
    }
  }

  const CACHE_TTL := 15.0

  datatype CachedScan = CachedScan(ids: seq<string>, at: real)

  /** The table a cached scan was taken from. */
  datatype Seen = Seen(requests: map<string, TextRequest>, order: seq<string>, at: real)

  // --- The pending scan as a function ------------------------------------------------

  /** Tasks of one status that are assigned to `node`, in row order. */
  function WithStatus(requests: map<string, TextRequest>, order: seq<string>, s: Status, node: Address): seq<string>
    requires forall id :: id in order ==> id in requests
  {
    if order == [] then []
    else
      var id := order[|order| - 1];
      WithStatus(requests, order[..|order| - 1], s, node) +
      (if requests[id].status == s && AssignedTo(requests[id], node) then [id] else [])
  }

  /** An entry that is missing or still pending may be handed out. */
  predicate HandsOut(t: TextRequest, node: Address) {
    node in t.nodes ==> t.nodes[node].status == Pending
  }

  function Eligible(requests: map<string, TextRequest>, ids: seq<string>, node: Address): seq<string>
    requires forall id :: id in ids ==> id in requests
  {
    if ids == [] then []
    else
      var id := ids[|ids| - 1];
      Eligible(requests, ids[..|ids| - 1], node) + (if HandsOut(requests[id], node) then [id] else [])
  }

  function Candidates(requests: map<string, TextRequest>, order: seq<string>, node: Address): seq<string>
    requires forall id :: id in order ==> id in requests
  {
    WithStatus(requests, order, Queued, node)
    + WithStatus(requests, order, Dispatched, node)
    + WithStatus(requests, order, Running, node)
  }

  lemma {:induction false} WithStatusMembers(requests: map<string, TextRequest>, order: seq<string>, s: Status, node: Address)
    requires Distinct(order) && forall id :: id in order ==> id in requests
    ensures Distinct(WithStatus(requests, order, s, node))
    ensures forall id :: id in WithStatus(requests, order, s, node) <==>
              id in order && requests[id].status == s && AssignedTo(requests[id], node)
  {
    if order != [] {
      var rest, last := order[..|order| - 1], order[|order| - 1];
      assert order == rest + [last];
      assert last !in rest;
      WithStatusMembers(requests, rest, s, node);
    }
  }

  lemma DistinctConcat(a: seq<string>, b: seq<string>)
    requires Distinct(a) && Distinct(b) && forall x :: x in a ==> x !in b
    ensures Distinct(a + b)
  {
    forall i, j | 0 <= i < j < |a + b| ensures (a + b)[i] != (a + b)[j] {
      if i < |a| <= j {
        assert a[i] in a && b[j - |a|] in b;
      }
    }
  }

  lemma CandidatesMembers(requests: map<string, TextRequest>, order: seq<string>, node: Address)
    requires Distinct(order) && forall id :: id in order ==> id in requests
    ensures Distinct(Candidates(requests, order, node))
    ensures forall id :: id in Candidates(requests, order, node) <==>
              id in order && Open(requests[id].status) && AssignedTo(requests[id], node)
  {
    WithStatusMembers(requests, order, Queued, node);
    WithStatusMembers(requests, order, Dispatched, node);
    WithStatusMembers(requests, order, Running, node);
    var queued, dispatched := WithStatus(requests, order, Queued, node), WithStatus(requests, order, Dispatched, node);
    DistinctConcat(queued, dispatched);
    DistinctConcat(queued + dispatched, WithStatus(requests, order, Running, node));
  }

  lemma {:induction false} EligibleMembers(requests: map<string, TextRequest>, ids: seq<string>, node: Address)
    requires Distinct(ids) && forall id :: id in ids ==> id in requests
    ensures Distinct(Eligible(requests, ids, node))
    ensures forall id :: id in Eligible(requests, ids, node) <==> id in ids && HandsOut(requests[id], node)
  {
    if ids != [] {
      var rest, last := ids[..|ids| - 1], ids[|ids| - 1];
      assert ids == rest + [last];
      assert last !in rest;
      EligibleMembers(requests, rest, node);
    }
  }

  function Scan(requests: map<string, TextRequest>, order: seq<string>, node: Address): seq<string>
    requires Distinct(order) && forall id :: id in order ==> id in requests
  {
    CandidatesMembers(requests, order, node);
    Eligible(requests, Candidates(requests, order, node), node)
  }

  /**
   * A scan lists, without repetition, exactly the unfinished tasks assigned to the node
   * whose entry is not claimed, completed or failed.
   */
  lemma ScanIsExact(requests: map<string, TextRequest>, order: seq<string>, node: Address)
    requires Distinct(order) && forall id :: id in order <==> id in requests
    ensures Distinct(Scan(requests, order, node))
    ensures forall id :: id in Scan(requests, order, node) <==>
              && id in requests
              && (requests[id].status == Queued || requests[id].status == Dispatched || requests[id].status == Running)
              && (requests[id].leader == node || node in requests[id].verifiers)
              && (node in requests[id].nodes ==>
                    requests[id].nodes[node].status !in {Claimed, Completed, TimedOut})
  {
    CandidatesMembers(requests, order, node);
    EligibleMembers(requests, Candidates(requests, order, node), node);
  }

  /** The side effect of a scan: every overdue claim of the node is failed. */
  function PollAll(requests: map<string, TextRequest>, node: Address, now: real): map<string, TextRequest> {
    map id | id in requests :: Poll(requests[id], node, now)
  }

  /** One poll of a request tells the payment service about a timeout exactly if it fails the request. */
  lemma PollAnnounces(t: TextRequest, node: Address, now: real)
    ensures Notices(t, Poll(t, node, now)) ==
            if t.status != Failed && Poll(t, node, now).status == Failed then [Notice(t.taskId, Timeout, None)] else []
  {
    PolledExactly(t, node, now);
  }

  /** The notices that a scan sends, request by request. */
  function PollNotices(requests: map<string, TextRequest>, ids: seq<string>, node: Address, now: real): seq<Notice>
    requires forall id :: id in ids ==> id in requests
  {
    if ids == [] then []
    else
      var id := ids[|ids| - 1];
      PollNotices(requests, ids[..|ids| - 1], node, now) + Notices(requests[id], Poll(requests[id], node, now))
  }

  /** The notices of one scan of the table. */
  function ScanNotices(requests: map<string, TextRequest>, order: seq<string>, node: Address, now: real): seq<Notice>
    requires Distinct(order) && forall id :: id in order ==> id in requests
  {
    CandidatesMembers(requests, order, node);
    PollNotices(requests, Candidates(requests, order, node), node, now)
  }

  lemma {:induction false} PollNoticesExactly(requests: map<string, TextRequest>, ids: seq<string>, node: Address, now: real, n: Notice)
    requires forall id :: id in ids ==> id in requests && requests[id].taskId == id && requests[id].status != Failed
    ensures n in PollNotices(requests, ids, node, now) <==>
              n.task in ids && Poll(requests[n.task], node, now).status == Failed && n == Notice(n.task, Timeout, None)
  {
    if ids != [] {
      var rest, last := ids[..|ids| - 1], ids[|ids| - 1];
      assert ids == rest + [last];
      PollNoticesExactly(requests, rest, node, now, n);
      PollAnnounces(requests[last], node, now);
    }
  }

  /** A scan reports a timeout, without a hash, for exactly those requests that it fails. */
  lemma ScanNoticesExactly(requests: map<string, TextRequest>, order: seq<string>, node: Address, now: real, n: Notice)
    requires Distinct(order) && (forall id :: id in order <==> id in requests) && forall id :: id in requests ==> requests[id].taskId == id
    ensures n in ScanNotices(requests, order, node, now) <==>
              && n == Notice(n.task, Timeout, None) && n.task in requests
              && requests[n.task].status != Failed && PollAll(requests, node, now)[n.task].status == Failed
  {
    CandidatesMembers(requests, order, node);
    PollNoticesExactly(requests, Candidates(requests, order, node), node, now, n);
    if n.task in requests {
      PolledExactly(requests[n.task], node, now);
    }
  }

  // --- Counting the commitments ------------------------------------------------------

  lemma VotesSnoc(ballots: seq<Hash>, x: Hash, h: Hash)
    ensures Votes(ballots + [x], h) == Votes(ballots, h) + if x == h then 1 else 0
  {
    assert multiset(ballots + [x]) == multiset(ballots) + multiset{x};
  }

  /** The dictionary holds, for each of its keys, the number of ballots so far. */
  ghost predicate Counts(keys: seq<Hash>, counts: map<Hash, nat>, ballots: seq<Hash>) {
    && (forall h :: h in keys <==> h in counts)
    && (forall h :: h in counts ==> counts[h] == Votes(ballots, h))
  }

  lemma KeysOneMore(ballots: seq<Hash>, x: Hash)
    requires ballots != [] && ballots[0] != ""
    ensures Keys(ballots + [x]) == if x == "" || x in Keys(ballots) then Keys(ballots) else Keys(ballots) + [x]
    ensures x !in Keys(ballots) && x != "" ==> Votes(ballots, x) == 0
  {
    assert (ballots + [x])[..|ballots|] == ballots;
    KeysAreBallots(ballots);
  }

  lemma CountOneMore(keys: seq<Hash>, counts: map<Hash, nat>, ballots: seq<Hash>, x: Hash)
    requires Counts(keys, counts, ballots)
    requires x !in keys && x != "" ==> Votes(ballots, x) == 0
    requires "" !in keys
    ensures Counts(
              if x == "" || x in keys then keys else keys + [x],
              if x == "" then counts else counts[x := (if x in counts then counts[x] else 0) + 1],
              ballots + [x])
  {
    forall h ensures Votes(ballots + [x], h) == Votes(ballots, h) + if x == h then 1 else 0 {
      VotesSnoc(ballots, x, h);
    }
  }

  lemma TallyOneMore(keys: seq<Hash>, counts: map<Hash, nat>, ballots: seq<Hash>, x: Hash)
    requires ballots != [] && ballots[0] != "" && keys == Keys(ballots) && Counts(keys, counts, ballots)
    ensures Keys(ballots + [x]) == if x == "" || x in keys then keys else keys + [x]
    ensures Counts(
              Keys(ballots + [x]),
              if x == "" then counts else counts[x := (if x in counts then counts[x] else 0) + 1],
              ballots + [x])
  {
    KeysAreBallots(ballots);
    KeysOneMore(ballots, x);
    CountOneMore(keys, counts, ballots, x);
  }

  lemma OneMoreRow(result: LeaderResult, rows: seq<VerdictRow>, i: nat)
    requires i < |rows|
    ensures Ballots(result.hash, Hashes(rows[..i + 1])) == Ballots(result.hash, Hashes(rows[..i])) + [rows[i].hash]
    ensures ConfidenceTotal(result, rows[..i + 1]) ==
              ConfidenceTotal(result, rows[..i]) + if rows[i].hash == result.hash then rows[i].confidence else 0
    ensures ConfidenceCount(result, rows[..i + 1]) ==
              ConfidenceCount(result, rows[..i]) + if rows[i].hash == result.hash then 1 else 0
  {
    assert rows[..i + 1][..i] == rows[..i];
  }

  /** What the counting loop has found in the rows it has seen. */
  ghost predicate Tallied(result: LeaderResult, rows: seq<VerdictRow>, keys: seq<Hash>, counts: map<Hash, nat>, sum: nat, matched: nat) {
    && keys == Keys(Ballots(result.hash, Hashes(rows)))
    && Counts(keys, counts, Ballots(result.hash, Hashes(rows)))
    && sum == ConfidenceTotal(result, rows) && matched == ConfidenceCount(result, rows)
  }

  lemma TalliedOneMore(result: LeaderResult, rows: seq<VerdictRow>, i: nat, keys: seq<Hash>, counts: map<Hash, nat>, sum: nat, matched: nat,
                       keys': seq<Hash>, counts': map<Hash, nat>)
    requires i < |rows| && result.hash != "" && Tallied(result, rows[..i], keys, counts, sum, matched)
    requires keys' == if rows[i].hash == "" || rows[i].hash in keys then keys else keys + [rows[i].hash]
    requires counts' == if rows[i].hash == "" then counts
                        else counts[rows[i].hash := (if rows[i].hash in counts then counts[rows[i].hash] else 0) + 1]
    ensures rows[i].hash == result.hash ==> Tallied(result, rows[..i + 1], keys', counts', sum + rows[i].confidence, matched + 1)
    ensures rows[i].hash != result.hash ==> Tallied(result, rows[..i + 1], keys', counts', sum, matched)
  {
    OneMoreRow(result, rows, i);
    TallyOneMore(keys, counts, Ballots(result.hash, Hashes(rows[..i])), rows[i].hash);
  }

  lemma TalliedNone(result: LeaderResult)
    requires result.hash != ""
    ensures Tallied(
              result, [], [result.hash], map[result.hash := 1],
              if result.confidence.Some? then result.confidence.value else 0, if result.confidence.Some? then 1 else 0)
  {
    assert Ballots(result.hash, Hashes([])) == [result.hash];
  }

  /** The counting loop: a dictionary of counts, in insertion order, plus the matched confidences. */
  method CountHashes(result: LeaderResult, rows: seq<VerdictRow>)
    returns (keys: seq<Hash>, counts: map<Hash, nat>, confidenceTotal: nat, matched: nat)
    requires result.hash != ""
    ensures keys == Keys(Ballots(result.hash, Hashes(rows)))
    ensures Counts(keys, counts, Ballots(result.hash, Hashes(rows)))
    ensures confidenceTotal == ConfidenceTotal(result, rows) && matched == ConfidenceCount(result, rows)
  {
    keys, counts := [result.hash], map[result.hash := 1];
    confidenceTotal := if result.confidence.Some? then result.confidence.value else 0;
    matched := if result.confidence.Some? then 1 else 0;
    TalliedNone(result);
    assert rows[..0] == [];
    for i := 0 to |rows|
      invariant Tallied(result, rows[..i], keys, counts, confidenceTotal, matched)
    {
      var keys', counts' := AddToCounts(keys, counts, rows[i].hash);
      TalliedOneMore(result, rows, i, keys, counts, confidenceTotal, matched, keys', counts');
      keys, counts := keys', counts';
      if rows[i].hash == result.hash {
        confidenceTotal, matched := confidenceTotal + rows[i].confidence, matched + 1;
      }
    }
    assert rows[..|rows|] == rows;
  }

  /** `hash_counts[h] = hash_counts.get(h, 0) + 1`, skipping an empty hash. */
  method AddToCounts(keys: seq<Hash>, counts: map<Hash, nat>, h: Hash) returns (keys': seq<Hash>, counts': map<Hash, nat>)
    ensures keys' == if h == "" || h in keys then keys else keys + [h]
    ensures counts' == if h == "" then counts else counts[h := (if h in counts then counts[h] else 0) + 1]
  {
    keys', counts' := keys, counts;
    if h != "" {
      if h !in keys {
        keys' := keys + [h];
      }
      counts' := counts[h := (if h in counts then counts[h] else 0) + 1];
    }
  }

  /** `max` over the counts: the first key whose count no later one exceeds. */
  method LargestCount(keys: seq<Hash>, counts: map<Hash, nat>, ghost ballots: seq<Hash>) returns (winner: Hash)
    requires keys != [] && Counts(keys, counts, ballots)
    ensures winner == Best(ballots, keys) && winner in counts
  {
    winner := keys[0];
    for i := 1 to |keys|
      invariant winner in counts && winner == Best(ballots, keys[..i])
    {
      assert keys[..i + 1][..i] == keys[..i];
      if counts[keys[i]] > counts[winner] {
        winner := keys[i];
      }
    }
    assert keys[..|keys|] == keys;
  }

  /** Count, take the largest count and compare it with the threshold. */
  method TallyRows(verifierCount: nat, result: LeaderResult, rows: seq<VerdictRow>)
    returns (d: Decision, confidenceTotal: nat, matched: nat)
    requires result.hash != ""
    ensures d == Decide(verifierCount, result.hash, Hashes(rows))
    ensures confidenceTotal == ConfidenceTotal(result, rows) && matched == ConfidenceCount(result, rows)
  {
    var total := 1 + verifierCount;
    var required := (2 * total + 2) / 3;
    var keys, counts;
    keys, counts, confidenceTotal, matched := CountHashes(result, rows);
    ghost var ballots := Ballots(result.hash, Hashes(rows));
    KeysAreBallots(ballots);
    var winner := LargestCount(keys, counts, ballots);
    var count := counts[winner];
    if count >= required {
      d := Accept(winner, count, Max(0, total - count));
    } else if |rows| >= verifierCount {
      d := Reject(count, Max(0, total - count));
    } else {
      d := Undecided;
    }
  }

  /** The average of the agreeing confidences, or what was stored before. */
  method AverageConfidence(winner: Hash, result: LeaderResult, rows: seq<VerdictRow>, stored: nat, sum: nat, matched: nat) returns (c: nat)
    requires sum == ConfidenceTotal(result, rows) && matched == ConfidenceCount(result, rows)
    ensures c == AggregatedConfidence(winner, result, rows, stored)
  {
    c := if winner == result.hash && matched > 0 then sum / matched else stored;
  }

  /** The body of the finalizer: tally the rows and fill in the decision. */
  method DecideText(document: TextRequest) returns (after: TextRequest)
    requires Decidable(document)
    ensures after == Finalize(document)
  {
    var result := document.result.value;
    var d, confidenceTotal, matched := TallyRows(|document.verifiers|, result, document.rows);
    match d {
      case Undecided =>
        after := document;
      case Accept(winner, confirms, rejects) =>
        var confidence := AverageConfidence(winner, result, document.rows, document.confidence, confidenceTotal, matched);
        after := document.(status := Accepted, commitment := Some(winner), confidence := confidence,
                           confirms := confirms, rejects := rejects);
      case Reject(confirms, rejects) =>
        after := document.(status := Rejected, confirms := confirms, rejects := rejects);
    }
  }

  // --- The service -------------------------------------------------------------------

  function Upper(s: string): string {
    seq(|s|, i requires 0 <= i < |s| => if 'a' <= s[i] <= 'z' then s[i] - 'a' + 'A' else s[i])
  }

  /** Request rows are keyed by their distinct task ids. */
  ghost predicate TableOk(requests: map<string, TextRequest>, order: seq<string>) {
    && Distinct(order)
    && (forall id :: id in order <==> id in requests)
    && (forall id :: id in requests ==> requests[id].taskId == id)
  }

  /** A cached answer is the scan of a table that the service held at that time. */
  ghost predicate CacheEntryOk(c: CachedScan, s: Seen, node: Address) {
    && Distinct(s.order) && (forall id :: id in s.order ==> id in s.requests)
    && c.ids == Scan(s.requests, s.order, node)
    && c.at == s.at
  }

  predicate GoodVerdict(verdict: string) {
    Upper(verdict) == "CONFIRM" || Upper(verdict) == "REJECT"
  }

  /** Only the two words are verdicts, in capital or small letters. */
  lemma VerdictWords(verdict: string, word: string)
    requires word == "CONFIRM" || word == "REJECT"
    ensures Upper(verdict) == word <==>
              && |verdict| == |word|
              && forall i :: 0 <= i < |word| ==> verdict[i] == word[i] || verdict[i] as int == word[i] as int + 32
    ensures GoodVerdict("Confirm") && GoodVerdict("REJECT") && !GoodVerdict("accept") && !GoodVerdict("")
  {
    assert Upper("Confirm") == "CONFIRM" && Upper("REJECT") == "REJECT";
    assert Upper("accept")[0] == 'A';
    if |verdict| == |word| && forall i :: 0 <= i < |word| ==> verdict[i] == word[i] || verdict[i] as int == word[i] as int + 32 {
      assert Upper(verdict) == word;
    }
  }

  predicate Blocked(t: TextRequest) {
    t.status == Queued && t.result.Some? && t.result.value.hash == ""
  }

  ghost predicate PolledSoFar(before: map<string, TextRequest>, now: map<string, TextRequest>, done: seq<string>,
                              node: Address, time: real)
  {
    && now.Keys == before.Keys
    && (forall id :: id in before ==> now[id] == if id in done then Poll(before[id], node, time) else before[id])
  }

  lemma EligibleOneMore(requests: map<string, TextRequest>, unique: seq<string>, i: nat, node: Address)
    requires i < |unique| && Distinct(unique) && forall id :: id in unique ==> id in requests
    ensures unique[..i + 1] == unique[..i] + [unique[i]] && unique[i] !in unique[..i]
    ensures Eligible(requests, unique[..i + 1], node) ==
              Eligible(requests, unique[..i], node) + if HandsOut(requests[unique[i]], node) then [unique[i]] else []
  {
    assert unique[..i + 1][..i] == unique[..i];
  }

  lemma NoticesOneMore(requests: map<string, TextRequest>, sent: seq<Notice>, unique: seq<string>, i: nat, node: Address, now: real)
    requires i < |unique| && forall id :: id in unique ==> id in requests
    ensures sent + PollNotices(requests, unique[..i + 1], node, now) ==
              sent + PollNotices(requests, unique[..i], node, now) + Notices(requests[unique[i]], Poll(requests[unique[i]], node, now))
  {
    assert unique[..i + 1][..i] == unique[..i];
  }

  lemma PollOneMore(before: map<string, TextRequest>, now: map<string, TextRequest>, done: seq<string>,
                    task: string, node: Address, time: real)
    requires PolledSoFar(before, now, done, node, time) && task in before && task !in done
    ensures PolledSoFar(before, now[task := Poll(now[task], node, time)], done + [task], node, time)
  {
  }

  /** The ids kept, the table and the notices after polling the requests in `done`. */
  ghost predicate Progress(before: map<string, TextRequest>, sent: seq<Notice>, now: map<string, TextRequest>, outbox: seq<Notice>,
                           ids: seq<string>, done: seq<string>, node: Address, time: real)
  {
    && (forall id :: id in done ==> id in before)
    && PolledSoFar(before, now, done, node, time)
    && ids == Eligible(before, done, node)
    && outbox == sent + PollNotices(before, done, node, time)
  }

  lemma ProgressOneMore(before: map<string, TextRequest>, sent: seq<Notice>, now: map<string, TextRequest>, outbox: seq<Notice>,
                        ids: seq<string>, unique: seq<string>, i: nat, node: Address, time: real)
    requires i < |unique| && Distinct(unique) && forall id :: id in unique ==> id in before
    requires Progress(before, sent, now, outbox, ids, unique[..i], node, time)
    ensures
      var t := before[unique[i]];
      && unique[i] in now && now[unique[i]] == t
      && Progress(before, sent, now[unique[i] := Poll(t, node, time)], outbox + Notices(t, Poll(t, node, time)),
                  if HandsOut(t, node) then ids + [unique[i]] else ids, unique[..i + 1], node, time)
  {
    EligibleOneMore(before, unique, i, node);
    NoticesOneMore(before, sent, unique, i, node, time);
    PollOneMore(before, now, unique[..i], unique[i], node, time);
    assert unique[..i] + [unique[i]] == unique[..i + 1];
  }

  lemma PollKeepsTable(requests: map<string, TextRequest>, order: seq<string>, node: Address, time: real)
    requires TableOk(requests, order)
    ensures TableOk(PollAll(requests, node, time), order)
  {
  }

  lemma PollDone(before: map<string, TextRequest>, now: map<string, TextRequest>, done: seq<string>, node: Address, time: real)
    requires PolledSoFar(before, now, done, node, time)
    requires forall id :: id in before && Open(before[id].status) && AssignedTo(before[id], node) ==> id in done
    ensures now == PollAll(before, node, time)
  {
  }

  lemma Overwrites(m: map<string, TextRequest>, k: string, a: TextRequest, b: TextRequest)
    ensures m[k := a][k := b] == m[k := b]
  {
  }

  /** The leader's post is in the document, and nothing else has changed but what a decision writes. */
  ghost predicate LeaderStored(before: TextRequest, now: TextRequest, result: LeaderResult) {
    && now.result == Some(result) && now.rows == before.rows
    && now.leader == before.leader && now.verifiers == before.verifiers && now.taskId == before.taskId
    && now.nodes.Keys == before.nodes.Keys + {before.leader}
    && now.nodes[before.leader].status == Completed
    && (before.leader in before.nodes ==> now.nodes[before.leader].claimedAt == before.nodes[before.leader].claimedAt)
    && (forall a :: a in before.nodes && a != before.leader ==> now.nodes[a] == before.nodes[a])
    && (now.status == before.status ==> now.commitment == Some(result.hash))
  }

  lemma LeaderIsStored(t: TextRequest, result: LeaderResult)
    ensures LeaderStored(t, Finalize(LeaderWrite(t, result)), result)
  {
  }

  lemma SameAnnouncement(t: TextRequest, t': TextRequest, sent: seq<Notice>)
    requires Announces(t, sent) && t'.status == t.status && t'.result == t.result && t'.rows == t.rows
    requires t'.verifiers == t.verifiers && t'.taskId == t.taskId
    ensures Announces(t', sent)
  {
  }

  lemma LeaderIsAnnounced(t: TextRequest, result: LeaderResult)
    ensures
      var written := LeaderWrite(t, result);
      |t.rows| <= |t.verifiers| ==> Announces(t.(result := Some(result)), Notices(written, Finalize(written)))
  {
    var written := LeaderWrite(t, result);
    if |t.rows| <= |t.verifiers| {
      NoticesAnnounce(written);
      SameAnnouncement(written, t.(result := Some(result)), Notices(written, Finalize(written)));
    }
  }

  lemma VerdictIsAnnounced(t: TextRequest, row: VerdictRow)
    requires WellFormed(t) && row.verifier in t.verifiers
    ensures
      var written := VerifierWrite(t, row);
      Announces(t.(rows := Finalize(written).rows), Notices(written, Finalize(written)))
  {
    VerdictIsStored(t, row);
    NoticesAnnounce(VerifierWrite(t, row));
  }

  /** The verdict is the verifier's only row, all other rows and the entries are as before. */
  ghost predicate VerdictStored(before: TextRequest, now: TextRequest, row: VerdictRow) {
    && (forall r :: r in now.rows <==> r == row || (r in before.rows && r.verifier != row.verifier))
    && now.result == before.result && now.nodes == before.nodes
    && now.leader == before.leader && now.verifiers == before.verifiers && now.taskId == before.taskId
  }

  lemma VerdictIsStored(t: TextRequest, row: VerdictRow)
    requires WellFormed(t) && row.verifier in t.verifiers
    ensures VerdictStored(t, Finalize(VerifierWrite(t, row)), row)
    ensures |Upsert(t.rows, row)| <= |t.verifiers| && Finalize(VerifierWrite(t, row)).rows == Upsert(t.rows, row)
  {
    UpsertKeepsOneRow(t.rows, row);
    StoringKeepsBound(t, row);
    FinalizeKeepsPosts(VerifierWrite(t, row));
  }

  lemma FinalizeKeepsPosts(t: TextRequest)
    ensures
      var after := Finalize(t);
      && after.rows == t.rows && after.result == t.result && after.nodes == t.nodes
      && after.leader == t.leader && after.verifiers == t.verifiers && after.taskId == t.taskId
  {
  }

  lemma StoringKeepsBound(t: TextRequest, row: VerdictRow)
    requires WellFormed(t) && row.verifier in t.verifiers
    ensures |Upsert(t.rows, row)| <= |t.verifiers|
  {
    UpsertKeepsOneRow(t.rows, row);
    RowsAreBounded(t.(rows := Upsert(t.rows, row)));
  }

  class TextQuorumService {
    var requests: map<string, TextRequest>
    var order: seq<string>
    var cache: map<Address, CachedScan>
    var outbox: seq<Notice>
    ghost var seen: map<Address, Seen>

    ghost predicate Valid()
      reads this
    {
      && TableOk(requests, order)
      && (forall a :: a in cache ==> a in seen && CacheEntryOk(cache[a], seen[a], a))
    }

    constructor ()
      ensures Valid() && requests == map[] && outbox == []
    {
      requests, order, cache, outbox, seen := map[], [], map[], [], map[];
    }

    /** The first write of a creation: nodes can find the request from now on. */
    method InsertTextRequest(task: string, leader: Address, verifiers: seq<Address>)
      requires Valid() && task !in requests
      modifies this`requests, this`order
      ensures Valid()
      ensures requests == old(requests)[task := Create(task, leader, verifiers, false)]
      ensures order == old(order) + [task]
    {
      DistinctAppend(order, task);
      requests := requests[task := Create(task, leader, verifiers, false)];
      order := order + [task];
    }

    /** Its closing write, after the chain has answered. */
    method OpenTextRequest(task: string, keyPending: bool)
      requires Valid() && task in requests
      modifies this`requests
      ensures Valid() && requests == old(requests)[task := OpenOver(old(requests)[task], keyPending)]
    {
      requests := requests[task := OpenOver(requests[task], keyPending)];
    }

    method CreateTextRequest(task: string, leader: Address, verifiers: seq<Address>, keyPending: bool)
      requires Valid() && task !in requests
      modifies this`requests, this`order
      ensures Valid()
      ensures requests == old(requests)[task := Create(task, leader, verifiers, keyPending)]
      ensures order == old(order) + [task]
    {
      InsertTextRequest(task, leader, verifiers);
      OpenTextRequest(task, keyPending);
    }

    /** `_attempt_finalize_text_request`: returns whether a result is available to the caller. */
    method AttemptFinalize(task: string) returns (outcome: Result<bool, ServiceError>)
      requires TableOk(requests, order) && task in requests
      modifies this`requests, this`outbox
      ensures TableOk(requests, order)
      ensures requests == old(requests)[task := Finalize(old(requests)[task])]
      ensures outbox == old(outbox) + Notices(old(requests)[task], Finalize(old(requests)[task]))
      ensures |old(requests)[task].rows| <= |old(requests)[task].verifiers| ==>
                Announces(old(requests)[task], outbox[|old(outbox)|..])
      ensures outcome == if Blocked(old(requests)[task]) then Err(MissingLeaderHash) else Ok(requests[task].status != Queued)
    {
      ghost var document := requests[task];
      outcome := DecideAndNotify(task);
      if |document.rows| <= |document.verifiers| {
        NoticesAnnounce(document);
      }
    }

    /** Each exit of the finalizer. */
    method DecideAndNotify(task: string) returns (outcome: Result<bool, ServiceError>)
      requires TableOk(requests, order) && task in requests
      modifies this`requests, this`outbox
      ensures TableOk(requests, order)
      ensures requests == old(requests)[task := Finalize(old(requests)[task])]
      ensures outbox == old(outbox) + Notices(old(requests)[task], Finalize(old(requests)[task]))
      ensures outcome == if Blocked(old(requests)[task]) then Err(MissingLeaderHash) else Ok(requests[task].status != Queued)
    {
      var document := requests[task];
      if document.status != Queued {
        return Ok(true);
      }
      if document.result.None? {
        return Ok(false);
      }
      if document.result.value.hash == "" {
        return Err(MissingLeaderHash);
      }
      var after := DecideText(document);
      assert after == Finalize(document);
      requests := requests[task := after];
      if after.status == Accepted {
        outbox := outbox + [Notice(task, Success, after.commitment)];
      } else if after.status == Rejected {
        outbox := outbox + [Notice(task, Rejection, None)];
      }
      return Ok(after.status != Queued);
    }

    method SubmitTextLeaderResult(task: string, result: LeaderResult, verdict: Option<string>)
      returns (outcome: Result<bool, ServiceError>)
      requires Valid()
      modifies this`requests, this`outbox
      ensures Valid()
      ensures outcome == Err(UnknownTask) <==> task !in old(requests)
      ensures outcome == Err(BadVerdict) <==> task in old(requests) && verdict.Some? && !GoodVerdict(verdict.value)
      ensures outcome == Err(UnknownTask) || outcome == Err(BadVerdict) ==>
                requests == old(requests) && outbox == old(outbox)
      ensures outcome.Ok? || outcome == Err(MissingLeaderHash) ==>
                var before := old(requests)[task];
                && requests.Keys == old(requests).Keys && (forall id :: id in requests && id != task ==> requests[id] == old(requests)[id])
                && old(outbox) <= outbox
                && LeaderStored(before, requests[task], result)
                && (|before.rows| <= |before.verifiers| ==> Announces(before.(result := Some(result)), outbox[|old(outbox)|..]))
                && (outcome == Err(MissingLeaderHash) <==> before.status == Queued && result.hash == "")
    {
      ghost var before := requests;
      outcome := StoreLeaderResult(task, result, verdict);
      if outcome.Ok? || outcome == Err(MissingLeaderHash) {
        LeaderIsStored(before[task], result);
        LeaderIsAnnounced(before[task], result);
      }
    }

    /** Its steps, with every exit. */
    method StoreLeaderResult(task: string, result: LeaderResult, verdict: Option<string>)
      returns (outcome: Result<bool, ServiceError>)
      requires Valid()
      modifies this`requests, this`outbox
      ensures Valid()
      ensures outcome == Err(UnknownTask) <==> task !in old(requests)
      ensures outcome == Err(BadVerdict) <==> task in old(requests) && verdict.Some? && !GoodVerdict(verdict.value)
      ensures outcome == Err(UnknownTask) || outcome == Err(BadVerdict) ==>
                requests == old(requests) && outbox == old(outbox)
      ensures outcome.Ok? || outcome == Err(MissingLeaderHash) ==>
                var written := LeaderWrite(old(requests)[task], result);
                && requests == old(requests)[task := Finalize(written)]
                && outbox == old(outbox) + Notices(written, Finalize(written))
                && (outcome == Err(MissingLeaderHash) <==> Blocked(written))
    {
      if task !in requests {
        return Err(UnknownTask);
      }
      if verdict.Some? && !GoodVerdict(verdict.value) {
        return Err(BadVerdict);
      }
      var document := requests[task];
      var written := document.(
        result := Some(result), commitment := Some(result.hash),
        nodes := WithEntryStatus(document.nodes, document.leader, Completed));
      assert written == LeaderWrite(document, result);
      Overwrites(requests, task, written, Finalize(written));
      requests := requests[task := written];
      outcome := AttemptFinalize(task);
    }

    method SubmitTextVerifierVerdict(task: string, verifier: Address, verdict: string, hash: Hash, confidence: nat)
      returns (outcome: Result<bool, ServiceError>)
      requires Valid()
      modifies this`requests, this`outbox
      ensures Valid()
      ensures outcome == Err(UnknownTask) <==> task !in old(requests)
      ensures outcome == Err(NotAVerifier) <==> task in old(requests) && verifier !in old(requests)[task].verifiers
      ensures outcome == Err(BadVerdict) <==>
                task in old(requests) && verifier in old(requests)[task].verifiers && !GoodVerdict(verdict)
      ensures outcome == Err(UnknownTask) || outcome == Err(NotAVerifier) || outcome == Err(BadVerdict) ==>
                requests == old(requests) && outbox == old(outbox)
      ensures outcome.Ok? || outcome == Err(MissingLeaderHash) ==>
                var before := old(requests)[task];
                && requests.Keys == old(requests).Keys && (forall id :: id in requests && id != task ==> requests[id] == old(requests)[id])
                && old(outbox) <= outbox
                && (WellFormed(before) ==>
                      && VerdictStored(before, requests[task], VerdictRow(verifier, Upper(verdict) == "CONFIRM", hash, confidence))
                      && Announces(before.(rows := requests[task].rows), outbox[|old(outbox)|..]))
                && (outcome == Err(MissingLeaderHash) <==> Blocked(before))
    {
      ghost var before := requests;
      outcome := StoreVerifierVerdict(task, verifier, verdict, hash, confidence);
      if (outcome.Ok? || outcome == Err(MissingLeaderHash)) && WellFormed(before[task]) {
        VerdictIsStored(before[task], VerdictRow(verifier, Upper(verdict) == "CONFIRM", hash, confidence));
        VerdictIsAnnounced(before[task], VerdictRow(verifier, Upper(verdict) == "CONFIRM", hash, confidence));
      }
    }

    /** Its steps, with every exit. */
    method StoreVerifierVerdict(task: string, verifier: Address, verdict: string, hash: Hash, confidence: nat)
      returns (outcome: Result<bool, ServiceError>)
      requires Valid()
      modifies this`requests, this`outbox
      ensures Valid()
      ensures outcome == Err(UnknownTask) <==> task !in old(requests)
      ensures outcome == Err(NotAVerifier) <==> task in old(requests) && verifier !in old(requests)[task].verifiers
      ensures outcome == Err(BadVerdict) <==>
                task in old(requests) && verifier in old(requests)[task].verifiers && !GoodVerdict(verdict)
      ensures outcome == Err(UnknownTask) || outcome == Err(NotAVerifier) || outcome == Err(BadVerdict) ==>
                requests == old(requests) && outbox == old(outbox)
      ensures outcome.Ok? || outcome == Err(MissingLeaderHash) ==>
                var row := VerdictRow(verifier, Upper(verdict) == "CONFIRM", hash, confidence);
                var written := VerifierWrite(old(requests)[task], row);
                && requests == old(requests)[task := Finalize(written)]
                && outbox == old(outbox) + Notices(written, Finalize(written))
                && (outcome == Err(MissingLeaderHash) <==> Blocked(written))
    {
      if task !in requests {
        return Err(UnknownTask);
      }
      var document := requests[task];
      if verifier !in document.verifiers {
        return Err(NotAVerifier);
      }
      if !GoodVerdict(verdict) {
        return Err(BadVerdict);
      }
      var row := VerdictRow(verifier, Upper(verdict) == "CONFIRM", hash, confidence);
      var written := document.(rows := Upsert(document.rows, row));
      Overwrites(requests, task, written, Finalize(written));
      requests := requests[task := written];
      outcome := AttemptFinalize(task);
    }

    method RecordNodeClaim(task: string, node: Address, now: real)
      requires Valid()
      modifies this`requests
      ensures Valid()
      ensures requests == if task in old(requests) then old(requests)[task := Claim(old(requests)[task], node, now)] else old(requests)
      ensures task in old(requests) ==>
                var before, after := old(requests)[task], requests[task];
                && after == before.(nodes := after.nodes) && after.nodes.Keys == before.nodes.Keys + {node}
                && after.nodes[node].status == Claimed && after.nodes[node].claimedAt == Some(now)
                && forall a :: a in before.nodes && a != node ==> after.nodes[a] == before.nodes[a]
    {
      if task in requests {
        var document := requests[task];
        var written := document.(nodes := document.nodes[node := Entry(Claimed, Some(now))]);
        requests := requests[task := written];
      }
    }

    /** The first half of a key confirmation: what it has read of the leader's result, if the key is still awaited. */
    method ReadForConfirmation(task: string) returns (held: Option<Option<LeaderResult>>)
      requires task in requests
      ensures held == if requests[task].status == PendingStoreKey then Some(requests[task].result) else None
    {
      if requests[task].status != PendingStoreKey {
        return None;
      }
      return Some(requests[task].result);
    }

    /** The second half, after the chain has answered: puts the result that was read back, and queues the request, whatever it is by now. */
    method WriteConfirmation(task: string, held: Option<LeaderResult>)
      requires Valid() && task in requests
      modifies this`requests
      ensures Valid() && requests == old(requests)[task := ConfirmOver(old(requests)[task], held)]
    {
      requests := requests[task := requests[task].(result := held, status := Queued)];
    }

    method ConfirmPromptKeyStore(task: string) returns (known: bool)
      requires Valid()
      modifies this`requests
      ensures Valid()
      ensures known == (task in old(requests))
      ensures known && old(requests)[task].status == PendingStoreKey ==>
                requests == old(requests)[task := old(requests)[task].(status := Queued)]
      ensures known && old(requests)[task].status != PendingStoreKey ==> requests == old(requests)
      ensures requests == if known then old(requests)[task := ConfirmStoreKey(old(requests)[task])] else old(requests)
    {
      if task !in requests {
        return false;
      }
      var held := ReadForConfirmation(task);
      if held.Some? {
        WriteConfirmation(task, held.value);
      }
      return true;
    }

    method MarkEntryFailed(task: string, node: Address)
      requires task in requests
      modifies this`requests
      ensures requests == old(requests)[task := MarkEntry(old(requests)[task], node)]
    {
      var document := requests[task];
      requests := requests[task := document.(nodes := WithEntryStatus(document.nodes, node, TimedOut))];
    }

    /** The second read of a poll. */
    method FindsAllFailed(task: string) returns (all: bool)
      requires task in requests
      ensures all <==> AllTimedOut(requests[task].nodes) && Open(requests[task].status)
    {
      all := AllTimedOut(requests[task].nodes) && Open(requests[task].status);
    }

    /** Its second write, whatever the request is by now, and the notice of it. */
    method FailRequest(task: string)
      requires task in requests
      modifies this`requests, this`outbox
      ensures requests == old(requests)[task := old(requests)[task].(status := Failed)]
      ensures outbox == old(outbox) + [Notice(task, Timeout, None)]
    {
      requests := requests[task := requests[task].(status := Failed)];
      outbox := outbox + [Notice(task, Timeout, None)];
    }

    /** Fail one entry, then fail the whole request if that was the last one, with nothing in between. */
    method MarkNodeAssignmentFailed(task: string, node: Address)
      requires task in requests && requests[task].taskId == task
      modifies this`requests, this`outbox
      ensures requests == old(requests)[task := MarkFailed(old(requests)[task], node)]
      ensures outbox == old(outbox) + Notices(old(requests)[task], MarkFailed(old(requests)[task], node))
    {
      var before := requests[task];
      Overwrites(requests, task, MarkEntry(before, node), MarkFailed(before, node));
      MarkEntryFailed(task, node);
      var all := FindsAllFailed(task);
      if all {
        FailRequest(task);
      }
    }

    /**
     * A poll. A cached answer less than the time-to-live old is returned as it is: the scan
     * of the table seen back then. Otherwise the table is scanned, overdue claims of the node
     * are failed on the way, and the answer is the scan of the table as the poll found it.
     */
    method GetPendingAssignments(node: Address, now: real) returns (ids: seq<string>)
      requires Valid()
      modifies this`requests, this`outbox, this`cache, this`seen
      ensures Valid()
      ensures node in old(cache) && now - old(cache)[node].at < 15.0 ==>
                && ids == Scan(old(seen)[node].requests, old(seen)[node].order, node)
                && now - old(seen)[node].at < 15.0
                && requests == old(requests) && cache == old(cache) && seen == old(seen) && outbox == old(outbox)
      ensures !(node in old(cache) && now - old(cache)[node].at < 15.0) ==>
                && ids == Scan(old(requests), order, node)
                && requests == PollAll(old(requests), node, now)
                && outbox == old(outbox) + ScanNotices(old(requests), order, node, now)
                && cache == old(cache)[node := CachedScan(ids, now)]
                && seen == old(seen)[node := Seen(old(requests), order, now)]
    {
      if node in cache && now - cache[node].at < CACHE_TTL {
        assert CacheEntryOk(cache[node], seen[node], node);
        return cache[node].ids;
      }
      ghost var before := requests;
      ids := PollTable(node, now);
      cache := cache[node := CachedScan(ids, now)];
      seen := seen[node := Seen(before, order, now)];
      assert CacheEntryOk(cache[node], seen[node], node);
    }

    /** A poll without the cache. */
    method PollTable(node: Address, now: real) returns (ids: seq<string>)
      requires TableOk(requests, order)
      modifies this`requests, this`outbox
      ensures TableOk(requests, order)
      ensures ids == Scan(old(requests), order, node) && requests == PollAll(old(requests), node, now)
      ensures outbox == old(outbox) + ScanNotices(old(requests), order, node, now)
    {
      var found := CollectAssigned(node);
      CandidatesMembers(requests, order, node);
      var unique := Deduplicate(found);
      ids := FilterAssigned(unique, node, now);
    }

    /** The scan of each unfinished status in turn. */
    method CollectAssigned(node: Address) returns (found: seq<string>)
      requires TableOk(requests, order)
      ensures found == Candidates(requests, order, node)
    {
      var queued := CollectStatus(Queued, node);
      var dispatched := CollectStatus(Dispatched, node);
      var running := CollectStatus(Running, node);
      found := queued + dispatched + running;
    }

    method CollectStatus(status: Status, node: Address) returns (found: seq<string>)
      requires TableOk(requests, order)
      ensures found == WithStatus(requests, order, status, node)
    {
      found := [];
      for i := 0 to |order|
        invariant found == WithStatus(requests, order[..i], status, node)
      {
        assert order[..i + 1][..i] == order[..i];
        var document := requests[order[i]];
        if document.status == status && (document.leader == node || node in document.verifiers) {
          found := found + [order[i]];
        }
      }
      assert order[..|order|] == order;
    }

    /** One row of a poll: time out an overdue claim, and say whether the row may be handed out. */
    method FilterOne(task: string, node: Address, now: real) returns (keep: bool)
      requires task in requests && requests[task].taskId == task
      requires Open(requests[task].status) && AssignedTo(requests[task], node)
      modifies this`requests, this`outbox
      ensures requests == old(requests)[task := Poll(old(requests)[task], node, now)]
      ensures outbox == old(outbox) + Notices(old(requests)[task], Poll(old(requests)[task], node, now))
      ensures keep == HandsOut(old(requests)[task], node)
    {
      var document := requests[task];
      if node in document.nodes && document.nodes[node].status == Claimed {
        var claimedAt := document.nodes[node].claimedAt;
        if claimedAt.Some? && now - claimedAt.value > CLAIM_TIMEOUT {
          MarkNodeAssignmentFailed(task, node);
        }
        return false;
      }
      return !(node in document.nodes && (document.nodes[node].status == Completed || document.nodes[node].status == TimedOut));
    }

    /** The second half of a poll: time out overdue claims and keep what may be handed out. */
    method FilterAssigned(unique: seq<string>, node: Address, now: real) returns (ids: seq<string>)
      requires TableOk(requests, order) && Distinct(unique)
      requires forall id :: id in unique <==> id in requests && Open(requests[id].status) && AssignedTo(requests[id], node)
      modifies this`requests, this`outbox
      ensures TableOk(requests, order)
      ensures ids == Eligible(old(requests), unique, node)
      ensures requests == PollAll(old(requests), node, now)
      ensures outbox == old(outbox) + PollNotices(old(requests), unique, node, now)
    {
      ids := [];
      for i := 0 to |unique|
        invariant Progress(old(requests), old(outbox), requests, outbox, ids, unique[..i], node, now)
      {
        ProgressOneMore(old(requests), old(outbox), requests, outbox, ids, unique, i, node, now);
        assert unique[i] in unique;
        var keep := FilterOne(unique[i], node, now);
        if keep {
          ids := ids + [unique[i]];
        }
      }
      assert unique[..|unique|] == unique;
      PollDone(old(requests), requests, unique, node, now);
      PollKeepsTable(old(requests), order, node, now);
    }
  }

  /** `list(dict.fromkeys(ids))`; the scan's tasks are already distinct. */
  method Deduplicate(ids: seq<string>) returns (unique: seq<string>)
    ensures Distinct(unique) && forall id :: id in unique <==> id in ids
    ensures Distinct(ids) ==> unique == ids
  {
    unique := [];
    for i := 0 to |ids|
      invariant Distinct(unique) && forall id :: id in unique <==> id in ids[..i]
      invariant Distinct(ids) ==> unique == ids[..i]
    {
      assert ids[..i + 1] == ids[..i] + [ids[i]];
      if ids[i] !in unique {
        DistinctAppend(unique, ids[i]);
        unique := unique + [ids[i]];
      }
    }
    assert ids[..|ids|] == ids;
  }
}
