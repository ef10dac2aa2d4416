/** The three-node consensus function against the general hash count, and what the count tolerates. */
module CommitmentConsensus {
  import opened Prelude
  import opened HashTally

  /** What `commitments` may contain; every entry may be absent. */
  datatype Commitments = Commitments(
    leader: Option<Hash>,
    v1: Option<Hash>,
    v2: Option<Hash>,
    leaderAddress: Option<string>,
    v1Address: Option<string>,
    v2Address: Option<string>)

  datatype Verdict = Verdict(verified: bool, winner: Option<Hash>, faulty: Option<string>)

  /** An absent or empty hash counts as not posted. */
  predicate Posted(h: Option<Hash>) {
    h.Some? && h.value != ""
  }

  function Evaluate(c: Commitments): Verdict {
    if Posted(c.leader) && Posted(c.v1) && c.leader == c.v1 then
      Verdict(true, c.leader, if Posted(c.v2) && c.v2 != c.leader then c.v2Address else None)
    else if Posted(c.leader) && Posted(c.v2) && c.leader == c.v2 then
      Verdict(true, c.leader, if Posted(c.v1) && c.v1 != c.leader then c.v1Address else None)
    else if Posted(c.v1) && Posted(c.v2) && c.v1 == c.v2 then Verdict(true, c.v1, c.leaderAddress)
    else if Posted(c.leader) && Posted(c.v1) && Posted(c.v2) then Verdict(false, None, Some("ALL"))
    else Verdict(false, None, None)
  }

  // --- Against the general count -----------------------------------------------------

  function PostedOf(h: Option<Hash>): seq<Hash> {
    if Posted(h) then [h.value] else []
  }

  /** What the finalizer makes of the same posts: nothing at all without a leader. */
  function Counted(c: Commitments): Decision {
    if Posted(c.leader) then Decide(2, c.leader.value, PostedOf(c.v1) + PostedOf(c.v2)) else Undecided
  }

  ghost predicate SameDecision(v: Verdict, d: Decision) {
    match d
    case Accept(h, _, _) => v.verified && v.winner == Some(h)
    case Reject(_, _) => !v.verified && v.faulty == Some("ALL")
    case Undecided => !v.verified && v.faulty == None
  }

  lemma VotesOfPosted(a: Hash, one: Option<Hash>, other: Option<Hash>, h: Hash)
    ensures Votes(Ballots(a, PostedOf(one) + PostedOf(other)), h) ==
              (if a == h then 1 else 0)
              + (if Posted(one) && one.value == h then 1 else 0) + (if Posted(other) && other.value == h then 1 else 0)
  {
    VotesOfBallots(a, PostedOf(one) + PostedOf(other), h);
    assert multiset(PostedOf(one) + PostedOf(other)) == multiset(PostedOf(one)) + multiset(PostedOf(other));
  }

  function Count(c: Commitments, h: Hash): nat {
    (if c.leader == Some(h) then 1 else 0) + (if c.v1 == Some(h) then 1 else 0) + (if c.v2 == Some(h) then 1 else 0)
  }

  /** The case distinction finds exactly the hash that two nodes posted. */
  lemma VerifiedIsTwoOfThree(c: Commitments, h: Hash)
    requires h != ""
    ensures Count(c, h) >= 2 <==> Evaluate(c).verified && Evaluate(c).winner == Some(h)
  {
  }

  lemma VerifiedIsAccepted(c: Commitments, h: Hash)
    requires Posted(c.leader) && h != ""
    ensures
      var d := Decide(2, c.leader.value, PostedOf(c.v1) + PostedOf(c.v2));
      d.Accept? && d.hash == h <==> Evaluate(c).verified && Evaluate(c).winner == Some(h)
  {
    var hashes := PostedOf(c.v1) + PostedOf(c.v2);
    AcceptedExactly(2, c.leader.value, hashes, h);
    VotesOfPosted(c.leader.value, c.v1, c.v2, h);
    VerifiedIsTwoOfThree(c, h);
    assert Votes(Ballots(c.leader.value, hashes), h) == Count(c, h);
  }

  lemma CountedExactly(c: Commitments, h: Hash)
    requires Posted(c.leader)
    ensures Counted(c).Accept? && Counted(c).hash == h ==> h != ""
    ensures Counted(c).Reject? <==> !Counted(c).Accept? && Posted(c.v1) && Posted(c.v2)
  {
    AcceptedExactly(2, c.leader.value, PostedOf(c.v1) + PostedOf(c.v2), h);
  }

  lemma VerifiedExactly(c: Commitments)
    requires Posted(c.leader)
    ensures Evaluate(c).verified ==> Evaluate(c).winner.Some? && Evaluate(c).winner.value != ""
    ensures !Evaluate(c).verified ==> Evaluate(c).faulty == if Posted(c.v1) && Posted(c.v2) then Some("ALL") else None
  {
  }

  lemma AgreesWithLeader(c: Commitments)
    requires Posted(c.leader)
    ensures SameDecision(Evaluate(c), Counted(c))
  {
    VerifiedExactly(c);
    if Counted(c).Accept? {
      CountedExactly(c, Counted(c).hash);
      VerifiedIsAccepted(c, Counted(c).hash);
    } else {
      CountedExactly(c, c.leader.value);
      if Evaluate(c).verified {
        VerifiedIsAccepted(c, Evaluate(c).winner.value);
      }
    }
  }

  /**
   * The three-node function and the general count at three nodes come to the same decision
   * on all posts except when the leader has posted nothing and both verifiers agree.
   */
  lemma AgreesWithCountExactly(c: Commitments)
    ensures SameDecision(Evaluate(c), Counted(c)) <==> Posted(c.leader) || !(Posted(c.v1) && c.v1 == c.v2)
  {
    if Posted(c.leader) {
      AgreesWithLeader(c);
    }
  }

  datatype Role = Leader | First | Second

  function HashOf(c: Commitments, r: Role): Option<Hash> {
    match r
    case Leader => c.leader
    case First => c.v1
    case Second => c.v2
  }

  function AddressOf(c: Commitments, r: Role): Option<string> {
    match r
    case Leader => c.leaderAddress
    case First => c.v1Address
    case Second => c.v2Address
  }

  /**
   * An accepted hash was posted by two of the three nodes, and blame falls exactly on a node
   * that did not post it: one with another hash, or a leader that posted nothing.
   */
  lemma BlameIsDeserved(c: Commitments)
    requires Evaluate(c).verified
    ensures exists a, b :: a != b && HashOf(c, a) == HashOf(c, b) == Evaluate(c).winner
    ensures Evaluate(c).faulty.Some? ==>
              exists r :: AddressOf(c, r) == Evaluate(c).faulty && HashOf(c, r) != Evaluate(c).winner &&
                          (Posted(c.leader) ==> Posted(HashOf(c, r)))
    ensures forall r :: Posted(HashOf(c, r)) && HashOf(c, r) != Evaluate(c).winner ==> Evaluate(c).faulty == AddressOf(c, r)
  {
    var winner := Evaluate(c).winner;
    assert HashOf(c, Leader) == c.leader && HashOf(c, First) == c.v1 && HashOf(c, Second) == c.v2;
    if Posted(c.leader) && c.leader == c.v1 {
      assert HashOf(c, Leader) == HashOf(c, First) == winner;
      assert AddressOf(c, Second) == c.v2Address;
    } else if Posted(c.leader) && c.leader == c.v2 {
      assert HashOf(c, Leader) == HashOf(c, Second) == winner;
      assert AddressOf(c, First) == c.v1Address;
    } else {
      assert HashOf(c, First) == HashOf(c, Second) == winner;
      assert AddressOf(c, Leader) == c.leaderAddress;
    }
  }

  // --- Fault tolerance for any number of nodes ---------------------------------------

  /** The hashes that were posted, in order. */
  function AllPosted(posts: seq<Option<Hash>>): seq<Hash> {
    if posts == [] then [] else AllPosted(posts[..|posts| - 1]) + PostedOf(posts[|posts| - 1])
  }

  /** Nodes that did not post `h`: silent, empty or different. */
  function Deviating(posts: seq<Option<Hash>>, h: Hash): set<nat> {
    set i | 0 <= i < |posts| && posts[i] != Some(h)
  }

  lemma VotesOfLast(posts: seq<Option<Hash>>, h: Hash)
    requires posts != [] && h != ""
    ensures
      var n := |posts| - 1;
      Votes(AllPosted(posts), h) == Votes(AllPosted(posts[..n]), h) + if posts[n] == Some(h) then 1 else 0
  {
    var n := |posts| - 1;
    assert multiset(AllPosted(posts)) == multiset(AllPosted(posts[..n])) + multiset(PostedOf(posts[n]));
  }

  lemma DeviatingOfLast(posts: seq<Option<Hash>>, h: Hash)
    requires posts != []
    ensures
      var n := |posts| - 1;
      |Deviating(posts, h)| == |Deviating(posts[..n], h)| + if posts[n] == Some(h) then 0 else 1
  {
    var n := |posts| - 1;
    if posts[n] == Some(h) {
      assert Deviating(posts, h) == Deviating(posts[..n], h);
    } else {
      assert Deviating(posts, h) == Deviating(posts[..n], h) + {n};
    }
  }

  lemma {:induction false} PostedOrDeviating(posts: seq<Option<Hash>>, h: Hash)
    requires h != ""
    ensures |AllPosted(posts)| <= |posts|
    ensures Votes(AllPosted(posts), h) + |Deviating(posts, h)| == |posts|
  {
    if posts == [] {
      assert Deviating(posts, h) == {};
    } else {
      PostedOrDeviating(posts[..|posts| - 1], h);
      VotesOfLast(posts, h);
      DeviatingOfLast(posts, h);
    }
  }

  /**
   * With a leader that has posted something, `h` is accepted exactly if at most a third of
   * all nodes deviate from it, whether they are silent, post nothing usable or post other
   * hashes, and whatever those are.
   */
  lemma ToleratesAThird(leaderHash: Hash, verifierPosts: seq<Option<Hash>>, h: Hash)
    requires leaderHash != "" && h != ""
    ensures
      var n := |verifierPosts| + 1;
      var d := Decide(|verifierPosts|, leaderHash, AllPosted(verifierPosts));
      d.Accept? && d.hash == h <==> |Deviating([Some(leaderHash)] + verifierPosts, h)| <= n / 3
  {
    var n := |verifierPosts| + 1;
    var hashes := AllPosted(verifierPosts);
    PostedOrDeviating(verifierPosts, h);
    AcceptedExactly(|verifierPosts|, leaderHash, hashes, h);
    VotesOfBallots(leaderHash, hashes, h);
    DeviatingShift(leaderHash, verifierPosts, h);
    RequiredIsCeiling(n, Votes(Ballots(leaderHash, hashes), h));
  }

  /** One more node, first instead of last. */
  lemma {:induction false} DeviatingShift(leaderHash: Hash, verifierPosts: seq<Option<Hash>>, h: Hash)
    requires h != ""
    ensures |Deviating([Some(leaderHash)] + verifierPosts, h)| == |Deviating(verifierPosts, h)| + if leaderHash == h then 0 else 1
  {
    var posts := [Some(leaderHash)] + verifierPosts;
    DeviatingOfLast(posts, h);
    if verifierPosts == [] {
      assert Deviating(posts[..0], h) == {} == Deviating(verifierPosts, h);
    } else {
      var n := |verifierPosts| - 1;
      DeviatingOfLast(verifierPosts, h);
      DeviatingShift(leaderHash, verifierPosts[..n], h);
      assert posts[..n + 1] == [Some(leaderHash)] + verifierPosts[..n];
    }
  }
}
