/** Choosing a quorum: filter, rank, shuffle the best slice, pick. */
module NodeSelector {
  import opened Prelude

  datatype Snapshot = Snapshot(
    address: string,
    reputation: int,
    accepted: int,
    rejected: int,
    models: Option<seq<string>>)

  datatype SelectError = NotEnoughActive | NotEnoughSupport

  datatype Selection = Selection(leader: string, verifiers: seq<string>, candidates: seq<string>)

  // --- The ranking key ---------------------------------------------------------------

  predicate TextBefore(a: string, b: string) {
    a == "" || (b != "" && (a[0] < b[0] || (a[0] == b[0] && TextBefore(a[1..], b[1..]))))
  }

  /** Not ranked worse: higher reputation, then more accepted, fewer rejected, smaller address. */
  predicate Before(a: Snapshot, b: Snapshot) {
    if a.reputation != b.reputation then a.reputation > b.reputation
    else if a.accepted != b.accepted then a.accepted > b.accepted
    else if a.rejected != b.rejected then a.rejected < b.rejected
    else TextBefore(a.address, b.address)
  }

  lemma {:induction false} TextIsOrdered(a: string, b: string, c: string)
    ensures TextBefore(a, b) || TextBefore(b, a)
    ensures TextBefore(a, b) && TextBefore(b, a) ==> a == b
    ensures TextBefore(a, b) && TextBefore(b, c) ==> TextBefore(a, c)
  {
    if a != "" && b != "" {
      TextIsOrdered(a[1..], b[1..], if c != "" then c[1..] else "");
      assert a == [a[0]] + a[1..] && b == [b[0]] + b[1..];
    }
  }

  /** The first `k` characters agree, and then `a` has the smaller one. */
  predicate SmallerAt(a: string, b: string, k: nat) {
    k < |a| && k < |b| && a[..k] == b[..k] && a[k] < b[k]
  }

  lemma SmallerInTail(a: string, b: string, k: nat)
    requires a != "" && b != "" && a[0] == b[0]
    ensures SmallerAt(a[1..], b[1..], k) <==> SmallerAt(a, b, k + 1)
  {
    if k < |a[1..]| && k < |b[1..]| {
      assert a[..k + 1] == [a[0]] + a[1..][..k] && b[..k + 1] == [b[0]] + b[1..][..k];
      assert a[..k + 1][1..] == a[1..][..k] && b[..k + 1][1..] == b[1..][..k];
    }
  }

  lemma SmallerAtHead(a: string, b: string, k: nat)
    requires a != "" && b != "" && a[0] != b[0]
    ensures SmallerAt(a, b, k) <==> k == 0 && a[0] < b[0]
  {
    if 0 < k < |a| && k < |b| {
      assert a[..k][0] == a[0] && b[..k][0] == b[0];
    }
  }

  /** Addresses are compared character by character; a proper beginning comes first. */
  lemma {:induction false} TextIsLexicographic(a: string, b: string)
    ensures TextBefore(a, b) <==> a <= b || exists k :: SmallerAt(a, b, k)
  {
    if a != "" && b != "" {
      if a[0] != b[0] {
        SmallerAtHead(a, b, 0);
        forall k: nat ensures SmallerAt(a, b, k) <==> k == 0 && a[0] < b[0] {
          SmallerAtHead(a, b, k);
        }
      } else {
        TextIsLexicographic(a[1..], b[1..]);
        assert a == [a[0]] + a[1..] && b == [b[0]] + b[1..];
        forall k: nat ensures SmallerAt(a[1..], b[1..], k) <==> SmallerAt(a, b, k + 1) {
          SmallerInTail(a, b, k);
        }
        if k: nat :| SmallerAt(a, b, k) {
          SmallerInTail(a, b, k - 1);
        }
      }
    }
  }

  /** What being ranked first says about reputations, counts and addresses. */
  lemma BetterFirst(a: Snapshot, b: Snapshot)
    requires Before(a, b)
    ensures a.reputation >= b.reputation
    ensures a.reputation == b.reputation ==> a.accepted >= b.accepted
    ensures a.reputation == b.reputation && a.accepted == b.accepted ==> a.rejected <= b.rejected
    ensures a.reputation == b.reputation && a.accepted == b.accepted && a.rejected == b.rejected ==>
              a.address <= b.address || exists k :: SmallerAt(a.address, b.address, k)
  {
    TextIsLexicographic(a.address, b.address);
  }

  /** The ranking is total and transitive, and only equal addresses tie. */
  lemma RankingIsOrdered(a: Snapshot, b: Snapshot, c: Snapshot)
    ensures Before(a, b) || Before(b, a)
    ensures Before(a, b) && Before(b, a) ==> a.address == b.address
    ensures Before(a, b) && Before(b, c) ==> Before(a, c)
  {
    TextIsOrdered(a.address, b.address, c.address);
  }

  // --- Sorting -----------------------------------------------------------------------

  predicate Ranked(s: seq<Snapshot>) {
    forall i, j :: 0 <= i < j < |s| ==> Before(s[i], s[j])
  }

  function Insert(s: seq<Snapshot>, x: Snapshot): seq<Snapshot> {
    if s == [] || Before(x, s[0]) then [x] + s else [s[0]] + Insert(s[1..], x)
  }

  function Rank(s: seq<Snapshot>): seq<Snapshot> {
    if s == [] then [] else Insert(Rank(s[1..]), s[0])
  }

  lemma {:induction false} InsertRanks(s: seq<Snapshot>, x: Snapshot)
    requires Ranked(s)
    ensures Ranked(Insert(s, x)) && multiset(Insert(s, x)) == multiset(s) + multiset{x}
  {
    if s == [] {
    } else if Before(x, s[0]) {
      forall j | 0 <= j < |s| ensures Before(x, s[j]) {
        RankingIsOrdered(x, s[0], s[j]);
      }
    } else {
      InsertRanks(s[1..], x);
      var rest := Insert(s[1..], x);
      assert s == [s[0]] + s[1..];
      forall j | 0 <= j < |rest| ensures Before(s[0], rest[j]) {
        assert rest[j] in multiset(rest);
        assert rest[j] in s[1..] || rest[j] == x;
        RankingIsOrdered(x, s[0], x);
      }
    }
  }

  lemma SameContentsSameLength<T>(one: seq<T>, other: seq<T>)
    requires multiset(one) == multiset(other)
    ensures |one| == |other|
  {
    assert |multiset(one)| == |one| && |multiset(other)| == |other|;
  }

  lemma ContentsOfTail<T>(s: seq<T>)
    requires s != []
    ensures multiset(s) == multiset(s[1..]) + multiset{s[0]}
  {
    assert s == [s[0]] + s[1..];
  }

  lemma {:induction false} RankSorts(s: seq<Snapshot>)
    ensures Ranked(Rank(s)) && multiset(Rank(s)) == multiset(s) && |Rank(s)| == |s|
  {
    if s != [] {
      RankSorts(s[1..]);
      InsertRanks(Rank(s[1..]), s[0]);
      ContentsOfTail(s);
    }
    SameContentsSameLength(Rank(s), s);
  }

  predicate DistinctAddresses(s: seq<Snapshot>) {
    forall i, j :: 0 <= i < j < |s| ==> s[i].address != s[j].address
  }

  /** Equal addresses mean equal snapshots; true of any list drawn from one pool. */
  predicate OneSnapshotEach(s: seq<Snapshot>) {
    forall a, b :: a in s && b in s && a.address == b.address ==> a == b
  }

  lemma RankedHead(s: seq<Snapshot>, x: Snapshot)
    requires Ranked(s) && x in s
    ensures Before(s[0], x)
  {
    RankingIsOrdered(s[0], s[0], s[0]);
  }

  lemma SameHead(one: seq<Snapshot>, other: seq<Snapshot>)
    requires Ranked(one) && Ranked(other) && multiset(one) == multiset(other) && OneSnapshotEach(one)
    requires one != [] && other != []
    ensures one[0] == other[0]
  {
    assert one[0] in multiset(other) && other[0] in multiset(one);
    RankedHead(one, other[0]);
    RankedHead(other, one[0]);
    RankingIsOrdered(one[0], other[0], one[0]);
  }

  lemma TailOfMultiset<T>(s: seq<T>)
    requires s != []
    ensures multiset(s[1..]) == multiset(s) - multiset{s[0]}
  {
    assert s == [s[0]] + s[1..];
  }

  /** There is only one ranked arrangement of the same snapshots. */
  lemma {:induction false} RankedIsUnique(one: seq<Snapshot>, other: seq<Snapshot>)
    requires Ranked(one) && Ranked(other) && multiset(one) == multiset(other) && OneSnapshotEach(one)
    ensures one == other
  {
    assert |one| == |multiset(one)| == |multiset(other)| == |other|;
    if one != [] {
      SameHead(one, other);
      TailOfMultiset(one);
      TailOfMultiset(other);
      RankedIsUnique(one[1..], other[1..]);
      assert one == [one[0]] + one[1..] && other == [other[0]] + other[1..];
    }
  }

  // --- Shuffling ---------------------------------------------------------------------

  /** A random index for each of the first `n` positions: `draws[i]` lies in `0..i`. */
  ghost predicate ValidDraws(draws: seq<nat>, n: nat) {
    |draws| >= n && forall i :: 0 <= i < n ==> draws[i] <= i
  }

  function Swap<T>(s: seq<T>, i: nat, j: nat): seq<T>
    requires i < |s| && j < |s|
  {
    s[i := s[j]][j := s[i]]
  }

  /** The swaps of the shuffle from position `i` down to 1. */
  function ShuffledFrom<T>(s: seq<T>, draws: seq<nat>, i: nat): (t: seq<T>)
    requires ValidDraws(draws, |s|) && (i < |s| || i == 0)
    ensures |t| == |s|
    decreases i
  {
    if i == 0 then s else ShuffledFrom(Swap(s, i, draws[i]), draws, i - 1)
  }

  function Shuffled<T>(s: seq<T>, draws: seq<nat>): (t: seq<T>)
    requires ValidDraws(draws, |s|)
    ensures |t| == |s|
  {
    if s == [] then s else ShuffledFrom(s, draws, |s| - 1)
  }

  lemma SwapPermutes<T>(s: seq<T>, i: nat, j: nat)
    requires i < |s| && j < |s|
    ensures multiset(Swap(s, i, j)) == multiset(s)
  {
  }

  lemma {:induction false} ShufflePermutes<T>(s: seq<T>, draws: seq<nat>, i: nat)
    requires ValidDraws(draws, |s|) && (i < |s| || i == 0)
    ensures multiset(ShuffledFrom(s, draws, i)) == multiset(s)
    decreases i
  {
    if i > 0 {
      SwapPermutes(s, i, draws[i]);
      ShufflePermutes(Swap(s, i, draws[i]), draws, i - 1);
    }
  }

  method SwapInPlace<T>(a: array<T>, i: nat, j: nat)
    requires i < a.Length && j < a.Length
    modifies a
    ensures a[..] == Swap(old(a[..]), i, j)
  {
    a[i], a[j] := a[j], a[i];
  }

  /** `random.shuffle` in place, with the random indices as a parameter. */
  method Shuffle<T>(a: array<T>, draws: seq<nat>)
    requires ValidDraws(draws, a.Length)
    modifies a
    ensures a[..] == Shuffled(old(a[..]), draws)
  {
    if a.Length == 0 {
      return;
    }
    var i := a.Length - 1;
    while i > 0
      invariant 0 <= i < a.Length
      invariant ShuffledFrom(a[..], draws, i) == Shuffled(old(a[..]), draws)
    {
      SwapInPlace(a, i, draws[i]);
      i := i - 1;
    }
  }

  /** Draws that leave every position alone except one exchange. */
  function Exchange(n: nat, low: nat, high: nat): (draws: seq<nat>)
    requires low <= high < n
    ensures ValidDraws(draws, n)
  {
    seq(n, i requires 0 <= i < n => if i == high then low else i)
  }

  lemma {:induction false} IdleSwaps<T>(s: seq<T>, draws: seq<nat>, i: nat)
    requires ValidDraws(draws, |s|) && (i < |s| || i == 0)
    requires forall k :: 0 < k <= i ==> draws[k] == k
    ensures ShuffledFrom(s, draws, i) == s
    decreases i
  {
    if i > 0 {
      assert Swap(s, i, i) == s;
      IdleSwaps(s, draws, i - 1);
    }
  }

  lemma {:induction false} IdleAbove<T>(s: seq<T>, draws: seq<nat>, i: nat, high: nat)
    requires ValidDraws(draws, |s|) && high <= i < |s|
    requires forall k :: high < k <= i ==> draws[k] == k
    ensures ShuffledFrom(s, draws, i) == ShuffledFrom(s, draws, high)
    decreases i
  {
    if i > high {
      assert Swap(s, i, i) == s;
      IdleAbove(s, draws, i - 1, high);
    }
  }

  /** One exchange brings any candidate of the slice into any position of it. */
  lemma AnyCandidateAnywhere<T>(s: seq<T>, candidate: nat, position: nat, n: nat)
    requires candidate < |s| <= n && position < |s|
    ensures
      var draws := if candidate < position then Exchange(n, candidate, position) else Exchange(n, position, candidate);
      Shuffled(s, draws)[position] == s[candidate]
  {
    var low, high := if candidate < position then candidate else position, if candidate < position then position else candidate;
    var draws := Exchange(n, low, high);
    IdleAbove(s, draws, |s| - 1, high);
    if high > 0 {
      IdleSwaps(Swap(s, high, low), draws, high - 1);
    }
  }

  // --- Selecting ---------------------------------------------------------------------

  /** A node that lists no models supports every model. */
  predicate Supports(s: Snapshot, model: Option<string>) {
    model.Some? && model.value != "" && s.models.Some? ==> model.value in s.models.value
  }

  function Supporting(pool: seq<Snapshot>, model: Option<string>): seq<Snapshot> {
    if pool == [] then []
    else
      var n := |pool| - 1;
      Supporting(pool[..n], model) + if Supports(pool[n], model) then [pool[n]] else []
  }

  function TopCount(n: nat, verifierCount: nat): nat {
    if n < 2 * (verifierCount + 1) then n else 2 * (verifierCount + 1)
  }

  function Addresses(s: seq<Snapshot>): seq<string> {
    seq(|s|, i requires 0 <= i < |s| => s[i].address)
  }

  /** The selection for given random indices of the top slice. */
  function Selected(pool: seq<Snapshot>, verifierCount: nat, model: Option<string>, draws: seq<nat>): Result<Selection, SelectError>
    requires ValidDraws(draws, 2 * (verifierCount + 1))
  {
    RankSorts(Supporting(pool, model));
    var ranked := Rank(Supporting(pool, model));
    if |pool| < verifierCount + 1 then Err(NotEnoughActive)
    else if |ranked| < verifierCount + 1 then Err(NotEnoughSupport)
    else
      var picked := Shuffled(ranked[..TopCount(|ranked|, verifierCount)], draws);
      Ok(Selection(picked[0].address, Addresses(picked[1..verifierCount + 1]), Addresses(ranked)))
  }

  lemma {:induction false} SupportingMembers(pool: seq<Snapshot>, model: Option<string>)
    ensures |Supporting(pool, model)| <= |pool|
    ensures forall s :: s in Supporting(pool, model) <==> s in pool && Supports(s, model)
  {
    if pool != [] {
      var n := |pool| - 1;
      assert pool == pool[..n] + [pool[n]];
      SupportingMembers(pool[..n], model);
    }
  }

  lemma AddressAppend(s: seq<Snapshot>, x: Snapshot)
    requires DistinctAddresses(s) && forall y :: y in s ==> y.address != x.address
    ensures DistinctAddresses(s + [x])
  {
  }

  lemma {:induction false} SupportingAreDistinct(pool: seq<Snapshot>, model: Option<string>)
    requires DistinctAddresses(pool)
    ensures DistinctAddresses(Supporting(pool, model))
  {
    if pool != [] {
      var n := |pool| - 1;
      SupportingAreDistinct(pool[..n], model);
      SupportingMembers(pool[..n], model);
      assert forall y :: y in pool[..n] ==> y.address != pool[n].address;
      if Supports(pool[n], model) {
        AddressAppend(Supporting(pool[..n], model), pool[n]);
      }
    }
  }

  lemma PermutedAddresses(one: seq<Snapshot>, other: seq<Snapshot>)
    requires multiset(one) == multiset(other) && DistinctAddresses(one)
    ensures DistinctAddresses(other)
  {
    forall i, j | 0 <= i < j < |other| ensures other[i].address != other[j].address {
      if other[i].address == other[j].address {
        assert other[i] in multiset(one) && other[j] in multiset(one);
        var a :| 0 <= a < |one| && one[a] == other[i];
        var b :| 0 <= b < |one| && one[b] == other[j];
        assert a == b;
        Twice(other, i, j);
        Once(one, a);
      }
    }
  }

  lemma Twice<T>(s: seq<T>, i: nat, j: nat)
    requires i < j < |s| && s[i] == s[j]
    ensures multiset(s)[s[i]] >= 2
  {
    assert s == s[..j] + [s[j]] + s[j + 1..];
    assert s[i] in s[..j];
  }

  lemma {:induction false} Once(s: seq<Snapshot>, i: nat)
    requires i < |s| && DistinctAddresses(s)
    ensures multiset(s)[s[i]] == 1
  {
    assert s == s[..i] + [s[i]] + s[i + 1..];
    assert s[i] !in s[..i] && s[i] !in s[i + 1..];
  }

  /** The picked nodes are different, as many as asked for, and all from the slice. */
  lemma PickedFromSlice(slice: seq<Snapshot>, verifierCount: nat, draws: seq<nat>)
    requires DistinctAddresses(slice) && verifierCount < |slice| && ValidDraws(draws, |slice|)
    ensures
      var picked := Shuffled(slice, draws);
      var chosen := [picked[0].address] + Addresses(picked[1..verifierCount + 1]);
      && Distinct(chosen)
      && (forall a :: a in chosen ==> exists s :: s in slice && s.address == a)
  {
    var picked := Shuffled(slice, draws);
    ShufflePermutes(slice, draws, |slice| - 1);
    PermutedAddresses(slice, picked);
    var chosen := [picked[0].address] + Addresses(picked[1..verifierCount + 1]);
    assert forall i :: 0 <= i < |chosen| ==> chosen[i] == picked[i].address;
    forall a | a in chosen ensures exists s :: s in slice && s.address == a {
      var i :| 0 <= i < |chosen| && chosen[i] == a;
      assert picked[i] in multiset(picked) && picked[i] in slice;
    }
  }

  /** The ranked candidates: the pool's supporting nodes, rearranged, each once. */
  lemma CandidatesAreSupporting(pool: seq<Snapshot>, model: Option<string>)
    requires DistinctAddresses(pool)
    ensures
      var ranked := Rank(Supporting(pool, model));
      && Ranked(ranked) && DistinctAddresses(ranked) && |ranked| == |Supporting(pool, model)| <= |pool|
      && forall s :: s in ranked <==> s in pool && Supports(s, model)
  {
    var kept := Supporting(pool, model);
    var ranked := Rank(kept);
    SupportingMembers(pool, model);
    SupportingAreDistinct(pool, model);
    RankSorts(kept);
    PermutedAddresses(kept, ranked);
    forall s ensures s in ranked <==> s in kept {
      assert s in ranked <==> s in multiset(ranked);
      assert s in kept <==> s in multiset(kept);
    }
  }

  /** Somebody earlier in the list has no smaller reputation, on a tie no fewer accepted tasks, then no more rejected ones. */
  lemma RankedByMerit(s: seq<Snapshot>, i: nat, j: nat)
    requires i < j < |s|
    ensures |Rank(s)| == |s|
    ensures
      var x, y := Rank(s)[i], Rank(s)[j];
      && x.reputation >= y.reputation
      && (x.reputation == y.reputation ==> x.accepted >= y.accepted)
      && (x.reputation == y.reputation && x.accepted == y.accepted ==> x.rejected <= y.rejected)
      && (x.reputation == y.reputation && x.accepted == y.accepted && x.rejected == y.rejected ==> TextBefore(x.address, y.address))
  {
    RankSorts(s);
    BetterFirst(Rank(s)[i], Rank(s)[j]);
  }

  /**
   * Whatever the shuffle draws: the call fails exactly when too few nodes are active or
   * support the model; otherwise the leader and the verifiers are pairwise different, as
   * many as asked for, supporting the model, and taken from a top slice in which everyone
   * is ranked no worse than everyone outside it.
   */
  lemma SelectionIsSound(pool: seq<Snapshot>, verifierCount: nat, model: Option<string>, draws: seq<nat>)
    requires DistinctAddresses(pool) && ValidDraws(draws, 2 * (verifierCount + 1))
    ensures
      var result := Selected(pool, verifierCount, model, draws);
      var ranked := Rank(Supporting(pool, model));
      var top := TopCount(|ranked|, verifierCount);
      && (result == Err(NotEnoughActive) <==> |pool| < verifierCount + 1)
      && (result == Err(NotEnoughSupport) <==> |Supporting(pool, model)| < verifierCount + 1 <= |pool|)
      && (forall s :: s in ranked <==>
            s in pool && (model.Some? && model.value != "" && s.models.Some? ==> model.value in s.models.value))
      && top == (if |ranked| <= 2 * (verifierCount + 1) then |ranked| else 2 * (verifierCount + 1))
      && (forall a, b :: a in ranked[..top] && b in ranked[top..] ==> Before(a, b) && a.reputation >= b.reputation)
      && (result.Ok? ==>
            var chosen := [result.value.leader] + result.value.verifiers;
            && |result.value.verifiers| == verifierCount && Distinct(chosen)
            && (forall a :: a in chosen ==> exists s :: s in ranked[..top] && s.address == a)
            && result.value.candidates == Addresses(ranked))
  {
    var ranked := Rank(Supporting(pool, model));
    var top := TopCount(|ranked|, verifierCount);
    CandidatesAreSupporting(pool, model);
    if |ranked| >= verifierCount + 1 {
      PickedFromSlice(ranked[..top], verifierCount, draws);
    }
  }

  lemma {:induction false} SupportingCounts(pool: seq<Snapshot>, model: Option<string>, s: Snapshot)
    ensures multiset(Supporting(pool, model))[s] == if Supports(s, model) then multiset(pool)[s] else 0
  {
    if pool != [] {
      var n := |pool| - 1;
      assert pool == pool[..n] + [pool[n]];
      SupportingCounts(pool[..n], model, s);
    }
  }

  lemma SupportingPermuted(one: seq<Snapshot>, other: seq<Snapshot>, model: Option<string>)
    requires multiset(one) == multiset(other)
    ensures multiset(Supporting(one, model)) == multiset(Supporting(other, model))
  {
    forall s ensures multiset(Supporting(one, model))[s] == multiset(Supporting(other, model))[s] {
      SupportingCounts(one, model, s);
      SupportingCounts(other, model, s);
    }
  }

  /** The order in which active nodes are listed has no influence on the selection. */
  lemma ListingOrderIsIrrelevant(one: seq<Snapshot>, other: seq<Snapshot>, verifierCount: nat, model: Option<string>, draws: seq<nat>)
    requires multiset(one) == multiset(other) && DistinctAddresses(one)
    requires ValidDraws(draws, 2 * (verifierCount + 1))
    ensures Selected(one, verifierCount, model, draws) == Selected(other, verifierCount, model, draws)
  {
    SameContentsSameLength(one, other);
    SupportingPermuted(one, other, model);
    SupportingAreDistinct(one, model);
    RankSorts(Supporting(one, model));
    RankSorts(Supporting(other, model));
    assert multiset(Rank(Supporting(one, model))) == multiset(Rank(Supporting(other, model)));
    PermutedAddresses(Supporting(one, model), Rank(Supporting(one, model)));
    RankedIsUnique(Rank(Supporting(one, model)), Rank(Supporting(other, model)));
  }

  lemma LeaderIsFirstShuffled(pool: seq<Snapshot>, verifierCount: nat, model: Option<string>, draws: seq<nat>)
    requires ValidDraws(draws, 2 * (verifierCount + 1)) && |Supporting(pool, model)| >= verifierCount + 1
    ensures |Rank(Supporting(pool, model))| == |Supporting(pool, model)| <= |pool|
    ensures
      var ranked, result := Rank(Supporting(pool, model)), Selected(pool, verifierCount, model, draws);
      result.Ok? && result.value.leader == Shuffled(ranked[..TopCount(|ranked|, verifierCount)], draws)[0].address
  {
    SupportingMembers(pool, model);
    RankSorts(Supporting(pool, model));
  }

  /** Every node of the top slice is the leader for some draw. */
  lemma EveryTopNodeCanLead(pool: seq<Snapshot>, verifierCount: nat, model: Option<string>, k: nat)
    requires |Supporting(pool, model)| >= verifierCount + 1
    requires k < TopCount(|Supporting(pool, model)|, verifierCount)
    ensures |Rank(Supporting(pool, model))| == |Supporting(pool, model)|
    ensures
      var result := Selected(pool, verifierCount, model, Exchange(2 * (verifierCount + 1), 0, k));
      result.Ok? && result.value.leader == Rank(Supporting(pool, model))[k].address
  {
    LeaderIsFirstShuffled(pool, verifierCount, model, Exchange(2 * (verifierCount + 1), 0, k));
    var ranked := Rank(Supporting(pool, model));
    AnyCandidateAnywhere(ranked[..TopCount(|ranked|, verifierCount)], k, 0, 2 * (verifierCount + 1));
  }

  // --- The selector ------------------------------------------------------------------

  method SortByRank(s: seq<Snapshot>) returns (ranked: seq<Snapshot>)
    ensures ranked == Rank(s)
  {
    ranked := [];
    for i := |s| downto 0
      invariant ranked == Rank(s[i..])
    {
      assert s[i..][1..] == s[i + 1..];
      ranked := Insert(ranked, s[i]);
    }
    assert s[0..] == s;
  }

  method KeepSupporting(pool: seq<Snapshot>, model: Option<string>) returns (kept: seq<Snapshot>)
    ensures kept == Supporting(pool, model)
  {
    kept := [];
    for i := 0 to |pool|
      invariant kept == Supporting(pool[..i], model)
    {
      assert pool[..i + 1][..i] == pool[..i];
      if Supports(pool[i], model) {
        kept := kept + [pool[i]];
      }
    }
    assert pool[..|pool|] == pool;
  }

  /** Copies the slice, shuffles the copy, and takes its first nodes. */
  method Pick(slice: seq<Snapshot>, verifierCount: nat, draws: seq<nat>) returns (leader: string, verifiers: seq<string>)
    requires verifierCount < |slice| && ValidDraws(draws, |slice|)
    ensures leader == Shuffled(slice, draws)[0].address
    ensures verifiers == Addresses(Shuffled(slice, draws)[1..verifierCount + 1])
  {
    var shuffled := new Snapshot[|slice|](i requires 0 <= i < |slice| => slice[i]);
    assert shuffled[..] == slice;
    Shuffle(shuffled, draws);
    leader := shuffled[0].address;
    verifiers := Addresses(shuffled[..][1..verifierCount + 1]);
  }

  predicate Chosen(a: Snapshot, s: Selection) {
    a.address == s.leader || a.address in s.verifiers
  }

  /** Nobody in `pool` who supports the model and is not among the first candidates has more reputation than a chosen node. */
  ghost predicate ChosenByMerit(pool: seq<Snapshot>, verifierCount: nat, model: Option<string>, s: Selection) {
    var top := if |s.candidates| <= 2 * (verifierCount + 1) then |s.candidates| else 2 * (verifierCount + 1);
    forall a, b :: a in pool && b in pool && Supports(b, model) && Chosen(a, s) && b.address !in s.candidates[..top] ==>
                     a.reputation >= b.reputation
  }

  lemma SelectionIsByMerit(pool: seq<Snapshot>, verifierCount: nat, model: Option<string>, draws: seq<nat>)
    requires DistinctAddresses(pool) && ValidDraws(draws, 2 * (verifierCount + 1)) && Selected(pool, verifierCount, model, draws).Ok?
    ensures ChosenByMerit(pool, verifierCount, model, Selected(pool, verifierCount, model, draws).value)
  {
    var s := Selected(pool, verifierCount, model, draws).value;
    var ranked := Rank(Supporting(pool, model));
    var top := TopCount(|ranked|, verifierCount);
    forall a, b | a in pool && b in pool && Supports(b, model) && Chosen(a, s) && b.address !in s.candidates[..top]
      ensures a.reputation >= b.reputation
    {
      ChosenIsInSlice(pool, verifierCount, model, draws, a);
      SliceIsByMerit(pool, verifierCount, model, a, b);
    }
  }

  lemma OutsideTheSlice(ranked: seq<Snapshot>, top: nat, b: Snapshot)
    requires top <= |ranked| && b in ranked && b.address !in Addresses(ranked)[..top]
    ensures b in ranked[top..]
  {
    assert forall i :: 0 <= i < top ==> Addresses(ranked)[..top][i] == ranked[i].address;
    var k :| 0 <= k < |ranked| && ranked[k] == b;
    assert ranked[top..][k - top] == b;
  }

  /** A chosen node is in the top slice. */
  lemma ChosenIsInSlice(pool: seq<Snapshot>, verifierCount: nat, model: Option<string>, draws: seq<nat>, a: Snapshot)
    requires DistinctAddresses(pool) && ValidDraws(draws, 2 * (verifierCount + 1)) && Selected(pool, verifierCount, model, draws).Ok?
    requires a in pool && Chosen(a, Selected(pool, verifierCount, model, draws).value)
    ensures
      var ranked := Rank(Supporting(pool, model));
      a in ranked[..TopCount(|ranked|, verifierCount)]
  {
    SelectionIsSound(pool, verifierCount, model, draws);
    var ranked, s := Rank(Supporting(pool, model)), Selected(pool, verifierCount, model, draws).value;
    assert a.address in [s.leader] + s.verifiers;
    var c :| c in ranked[..TopCount(|ranked|, verifierCount)] && c.address == a.address;
    assert c in ranked;
    assert c in pool;
  }

  lemma SliceIsByMerit(pool: seq<Snapshot>, verifierCount: nat, model: Option<string>, a: Snapshot, b: Snapshot)
    requires DistinctAddresses(pool) && b in pool && Supports(b, model)
    requires
      var ranked := Rank(Supporting(pool, model));
      var top := TopCount(|ranked|, verifierCount);
      a in ranked[..top] && b.address !in Addresses(ranked)[..top]
    ensures a.reputation >= b.reputation
  {
    var ranked := Rank(Supporting(pool, model));
    var top := TopCount(|ranked|, verifierCount);
    CandidatesAreSupporting(pool, model);
    OutsideTheSlice(ranked, top, b);
    var i :| 0 <= i < top && ranked[i] == a;
    var j :| top <= j < |ranked| && ranked[j] == b;
    BetterFirst(ranked[i], ranked[j]);
  }

  method SelectQuorum(pool: seq<Snapshot>, verifierCount: nat, model: Option<string>, draws: seq<nat>)
    returns (result: Result<Selection, SelectError>)
    requires ValidDraws(draws, 2 * (verifierCount + 1))
    ensures result == Selected(pool, verifierCount, model, draws)
    ensures DistinctAddresses(pool) && result.Ok? ==> ChosenByMerit(pool, verifierCount, model, result.value)
  {
    if DistinctAddresses(pool) && Selected(pool, verifierCount, model, draws).Ok? {
      SelectionIsByMerit(pool, verifierCount, model, draws);
    }
    if |pool| < verifierCount + 1 {
      return Err(NotEnoughActive);
    }
    var kept := KeepSupporting(pool, model);
    RankSorts(kept);
    if |kept| < verifierCount + 1 {
      return Err(NotEnoughSupport);
    }
    var ranked := SortByRank(kept);
    var top := TopCount(|ranked|, verifierCount);
    var leader, verifiers := Pick(ranked[..top], verifierCount, draws);
    result := Ok(Selection(leader, verifiers, Addresses(ranked)));
  }
}
