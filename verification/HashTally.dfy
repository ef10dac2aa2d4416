/** Counting commitment hashes and deciding a text request from the counts. */
module HashTally {
  import opened Prelude

  type Hash = string

  /** Number of equal commitments a quorum of `total` nodes needs. */
  function Required(total: nat): nat {
    (2 * total + 2) / 3
  }

  /** How many ballots carry `h`. */
  function Votes(ballots: seq<Hash>, h: Hash): nat {
    multiset(ballots)[h]
  }

  /**
   * The keys of the count dictionary in insertion order: the leader's hash first, then each
   * further hash when it is first met. Empty verdict hashes are skipped.
   */
  function Keys(ballots: seq<Hash>): seq<Hash>
    requires ballots != []
  {
    if |ballots| == 1 then ballots
    else
      var keys, next := Keys(ballots[..|ballots| - 1]), ballots[|ballots| - 1];
      if next == "" || next in keys then keys else keys + [next]
  }

  /** `max` by count over `keys`: among equal counts the first key wins. */
  function Best(ballots: seq<Hash>, keys: seq<Hash>): Hash
    requires keys != []
  {
    if |keys| == 1 then keys[0]
    else
      var best, next := Best(ballots, keys[..|keys| - 1]), keys[|keys| - 1];
      if Votes(ballots, next) > Votes(ballots, best) then next else best
  }

  lemma {:induction false} KeysAreBallots(ballots: seq<Hash>)
    requires ballots != []
    ensures Keys(ballots) != []
    ensures ballots[0] != "" ==> forall h :: h in Keys(ballots) <==> h != "" && h in ballots
  {
    if |ballots| > 1 {
      var rest := ballots[..|ballots| - 1];
      assert ballots == rest + [ballots[|ballots| - 1]];
      KeysAreBallots(rest);
    }
  }

  /** `a` was met before `b` was. */
  ghost predicate MetBefore(ballots: seq<Hash>, a: Hash, b: Hash) {
    a != b && exists k :: 0 <= k < |ballots| && ballots[k] == a && b !in ballots[..k]
  }

  /** The keys stand in the order in which their hashes are first met. */
  lemma {:induction false} KeysInOrder(ballots: seq<Hash>)
    requires ballots != [] && ballots[0] != ""
    ensures forall i, j :: 0 <= i < j < |Keys(ballots)| ==> MetBefore(ballots, Keys(ballots)[i], Keys(ballots)[j])
  {
    if |ballots| > 1 {
      var n := |ballots| - 1;
      var rest, next := ballots[..n], ballots[n];
      KeysInOrder(rest);
      KeysAreBallots(rest);
      forall i, j | 0 <= i < j < |Keys(ballots)| ensures MetBefore(ballots, Keys(ballots)[i], Keys(ballots)[j]) {
        MetBeforeInPrefix(rest, next, Keys(ballots)[i], Keys(ballots)[j], j < |Keys(rest)|);
      }
    }
  }

  lemma MetBeforeInPrefix(rest: seq<Hash>, next: Hash, a: Hash, b: Hash, known: bool)
    requires if known then MetBefore(rest, a, b) else a in rest && b !in rest
    ensures MetBefore(rest + [next], a, b)
    ensures forall ballots :: ballots == rest + [next] ==> MetBefore(ballots, a, b)
  {
    var k :| 0 <= k < |rest| && rest[k] == a && b !in rest[..k];
    assert (rest + [next])[k] == a && (rest + [next])[..k] == rest[..k];
  }

  /** The hash with the largest count. */
  function Leading(ballots: seq<Hash>): Hash
    requires ballots != []
  {
    KeysAreBallots(ballots);
    Best(ballots, Keys(ballots))
  }

  datatype Decision =
    | Undecided
    | Accept(hash: Hash, confirms: nat, rejects: nat)
    | Reject(confirms: nat, rejects: nat)

  function Ballots(leaderHash: Hash, hashes: seq<Hash>): seq<Hash> {
    [leaderHash] + hashes
  }

  /**
   * The decision the finalizer draws from a leader hash and the stored verdict hashes:
   * accept as soon as the leading count is large enough, reject only once every
   * verifier has a row.
   */
  function Decide(verifierCount: nat, leaderHash: Hash, hashes: seq<Hash>): Decision {
    var ballots := Ballots(leaderHash, hashes);
    var winner := Leading(ballots);
    var count := Votes(ballots, winner);
    var total := verifierCount + 1;
    if count >= Required(total) then Accept(winner, count, Max(0, total - count))
    else if |hashes| >= verifierCount then Reject(count, Max(0, total - count))
    else Undecided
  }

  /** The promised rule: `h` is a real hash held by at least two thirds of `total` nodes. */
  predicate TwoThirds(ballots: seq<Hash>, total: nat, h: Hash) {
    h != "" && 3 * Votes(ballots, h) >= 2 * total
  }

  // --- Arithmetic of the threshold -------------------------------------------------

  /** The integer expression is the ceiling of two thirds. */
  lemma RequiredIsCeiling(total: nat, votes: nat)
    ensures votes >= Required(total) <==> 3 * votes >= 2 * total
    ensures total > 0 ==> 2 * Required(total) > total
    ensures Required(total) == total - total / 3
  {
  }

  // --- Facts about votes -----------------------------------------------------------

  lemma {:induction false} VotesOfTwo(ballots: seq<Hash>, a: Hash, b: Hash)
    requires a != b
    ensures Votes(ballots, a) + Votes(ballots, b) <= |ballots|
  {
    if ballots != [] {
      var rest := ballots[..|ballots| - 1];
      assert ballots == rest + [ballots[|ballots| - 1]];
      VotesOfTwo(rest, a, b);
    }
  }

  lemma VotesOfPrefix(ballots: seq<Hash>, more: seq<Hash>, h: Hash)
    ensures Votes(ballots, h) <= Votes(ballots + more, h)
  {
    assert multiset(ballots + more) == multiset(ballots) + multiset(more);
  }

  lemma VotesOfBallots(leaderHash: Hash, hashes: seq<Hash>, h: Hash)
    ensures Votes(Ballots(leaderHash, hashes), h) == (if leaderHash == h then 1 else 0) + Votes(hashes, h)
  {
    assert multiset(Ballots(leaderHash, hashes)) == multiset{leaderHash} + multiset(hashes);
  }

  lemma {:induction false} BestIsMost(ballots: seq<Hash>, keys: seq<Hash>)
    requires keys != []
    ensures Best(ballots, keys) in keys
    ensures forall h :: h in keys ==> Votes(ballots, h) <= Votes(ballots, Best(ballots, keys))
  {
    if |keys| > 1 {
      var rest := keys[..|keys| - 1];
      assert keys == rest + [keys[|keys| - 1]];
      BestIsMost(ballots, rest);
    }
  }

  /** `max` takes the first of the keys with the most votes. */
  lemma {:induction false} BestIsFirst(ballots: seq<Hash>, keys: seq<Hash>, k: nat)
    requires k < |keys| && Best(ballots, keys) !in keys[..k]
    ensures forall j :: 0 <= j < k ==> Votes(ballots, keys[j]) < Votes(ballots, Best(ballots, keys))
  {
    var n := |keys| - 1;
    if n > 0 {
      var rest := keys[..n];
      assert keys == rest + [keys[n]];
      BestIsMost(ballots, rest);
      if Best(ballots, keys) == Best(ballots, rest) {
        assert forall i :: 0 <= i < k ==> keys[..k][i] == keys[i];
        var i :| 0 <= i < n && rest[i] == Best(ballots, rest);
        assert rest[..k] == keys[..k];
        BestIsFirst(ballots, rest, k);
      } else {
        assert forall j :: 0 <= j < n ==> rest[j] in rest;
      }
    }
  }

  lemma LeadingBeatsAll(leaderHash: Hash, hashes: seq<Hash>, h: Hash)
    requires leaderHash != "" && h != ""
    ensures Leading(Ballots(leaderHash, hashes)) != ""
    ensures Votes(Ballots(leaderHash, hashes), h) <= Votes(Ballots(leaderHash, hashes), Leading(Ballots(leaderHash, hashes)))
  {
    var ballots := Ballots(leaderHash, hashes);
    KeysAreBallots(ballots);
    BestIsMost(ballots, Keys(ballots));
    assert h !in ballots ==> Votes(ballots, h) == 0;
  }

  // --- The decision rule -----------------------------------------------------------

  /** At most one hash can be held by two thirds of the nodes. */
  lemma TwoThirdsIsUnique(ballots: seq<Hash>, total: nat, a: Hash, b: Hash)
    requires |ballots| <= total && total > 0
    requires TwoThirds(ballots, total, a) && TwoThirds(ballots, total, b)
    ensures a == b
  {
    if a != b {
      VotesOfTwo(ballots, a, b);
    }
  }

  /**
   * Counting by insertion order and threshold decides exactly the two-thirds rule: a hash
   * is accepted if and only if two thirds hold it, and a request is rejected if and only
   * if every verifier has voted and no hash has two thirds. The confirm count is the largest
   * number of votes that any hash has, the reject count everybody else.
   */
  lemma DecideMeetsRule(verifierCount: nat, leaderHash: Hash, hashes: seq<Hash>)
    requires leaderHash != "" && |hashes| <= verifierCount
    ensures
      var d := Decide(verifierCount, leaderHash, hashes);
      var ballots := Ballots(leaderHash, hashes);
      var total := verifierCount + 1;
      && (forall h :: (d.Accept? && d.hash == h) <==> TwoThirds(ballots, total, h))
      && (d.Reject? <==> |hashes| == verifierCount && forall h :: !TwoThirds(ballots, total, h))
      && (d.Accept? ==> d.confirms == Votes(ballots, d.hash))
      && (!d.Undecided? ==>
            && d.confirms + d.rejects == total
            && (forall h :: h != "" ==> Votes(ballots, h) <= d.confirms)
            && (exists h :: h != "" && Votes(ballots, h) == d.confirms))
  {
    var ballots := Ballots(leaderHash, hashes);
    var total := verifierCount + 1;
    var winner := Leading(ballots);
    LeadingBeatsAll(leaderHash, hashes, leaderHash);
    RequiredIsCeiling(total, Votes(ballots, winner));
    VotesBound(ballots, winner);
    assert Votes(ballots, winner) >= Required(total) <==> TwoThirds(ballots, total, winner);
    forall h | h != "" ensures Votes(ballots, h) <= Votes(ballots, winner) {
      LeadingBeatsAll(leaderHash, hashes, h);
    }
    forall h | TwoThirds(ballots, total, h)
      ensures TwoThirds(ballots, total, winner) && h == winner
    {
      LeadingBeatsAll(leaderHash, hashes, h);
      TwoThirdsIsUnique(ballots, total, h, winner);
    }
  }

  /** The rule for one hash at a time. */
  lemma AcceptedExactly(verifierCount: nat, leaderHash: Hash, hashes: seq<Hash>, h: Hash)
    requires leaderHash != "" && |hashes| <= verifierCount
    ensures
      var d := Decide(verifierCount, leaderHash, hashes);
      && (d.Accept? && d.hash == h <==> TwoThirds(Ballots(leaderHash, hashes), verifierCount + 1, h))
      && (d.Reject? <==> |hashes| == verifierCount && !d.Accept?)
  {
    DecideMeetsRule(verifierCount, leaderHash, hashes);
  }

  /** The two counts of an acceptance: the winner's votes, and everybody else. */
  lemma AcceptedCounts(verifierCount: nat, leaderHash: Hash, hashes: seq<Hash>)
    requires leaderHash != "" && |hashes| <= verifierCount
    ensures
      var d := Decide(verifierCount, leaderHash, hashes);
      d.Accept? ==>
        && d.confirms == Votes(Ballots(leaderHash, hashes), d.hash) >= Required(verifierCount + 1)
        && d.confirms + d.rejects == verifierCount + 1
  {
    DecideMeetsRule(verifierCount, leaderHash, hashes);
  }

  lemma VotesBound(ballots: seq<Hash>, h: Hash)
    ensures Votes(ballots, h) <= |ballots|
  {
    VotesOfTwo(ballots, h, h + "x");
  }

  /** Verdicts that arrive later can never undo or change an acceptance. */
  lemma AcceptanceIsStable(verifierCount: nat, leaderHash: Hash, early: seq<Hash>, late: seq<Hash>)
    requires leaderHash != "" && early <= late && |late| <= verifierCount
    requires Decide(verifierCount, leaderHash, early).Accept?
    ensures Decide(verifierCount, leaderHash, late).Accept?
    ensures Decide(verifierCount, leaderHash, late).hash == Decide(verifierCount, leaderHash, early).hash
  {
    var h := Decide(verifierCount, leaderHash, early).hash;
    DecideMeetsRule(verifierCount, leaderHash, early);
    DecideMeetsRule(verifierCount, leaderHash, late);
    assert Ballots(leaderHash, late) == Ballots(leaderHash, early) + late[|early|..];
    VotesOfPrefix(Ballots(leaderHash, early), late[|early|..], h);
    assert TwoThirds(Ballots(leaderHash, early), verifierCount + 1, h);
    assert TwoThirds(Ballots(leaderHash, late), verifierCount + 1, h);
  }

  /** Only which hashes were posted matters, never the order the rows are read in. */
  lemma DecisionIgnoresRowOrder(verifierCount: nat, leaderHash: Hash, one: seq<Hash>, other: seq<Hash>)
    requires leaderHash != "" && |one| <= verifierCount && multiset(one) == multiset(other)
    ensures Decide(verifierCount, leaderHash, one) == Decide(verifierCount, leaderHash, other)
  {
    assert |one| == |multiset(one)| == |multiset(other)| == |other|;
    var a, b := Ballots(leaderHash, one), Ballots(leaderHash, other);
    forall h ensures Votes(a, h) == Votes(b, h) {
      VotesOfBallots(leaderHash, one, h);
      VotesOfBallots(leaderHash, other, h);
    }
    var wa, wb := Leading(a), Leading(b);
    LeadingBeatsAll(leaderHash, one, leaderHash);
    LeadingBeatsAll(leaderHash, other, leaderHash);
    LeadingBeatsAll(leaderHash, one, wb);
    LeadingBeatsAll(leaderHash, other, wa);
    DecideMeetsRule(verifierCount, leaderHash, one);
    DecideMeetsRule(verifierCount, leaderHash, other);
    if Decide(verifierCount, leaderHash, one).Accept? {
      TwoThirdsIsUnique(a, verifierCount + 1, wa, wb);
    }
  }
}
