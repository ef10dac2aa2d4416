/** Risk mode: counting verifier verdicts, the rounded confidence, and the threshold against text mode. */
module VerdictAggregator {
  import opened Prelude
  import opened HashTally

  datatype Verdict = Verdict(address: string, accepted: bool, confidence: nat)

  datatype Aggregation = Aggregation(accepted: bool, confirms: nat, rejects: nat, confidence: int, verdicts: seq<Verdict>)

  // --- Which verdict counts for a verifier -------------------------------------------

  /** Addresses are hex text, so lower-casing the Latin letters is all that `lower` does. */
  function Lower(s: string): string {
    seq(|s|, i requires 0 <= i < |s| => if 'A' <= s[i] <= 'Z' then (s[i] - 'A') + 'a' else s[i])
  }

  /** Of several verdicts for one address the last one counts. */
  function LastFor(provided: seq<Verdict>, key: string): Option<Verdict> {
    if provided == [] then None
    else
      var last := provided[|provided| - 1];
      if Lower(last.address) == key then Some(last) else LastFor(provided[..|provided| - 1], key)
  }

  /** A missing verdict counts as a rejection without confidence. */
  function VerdictOf(verifier: string, provided: seq<Verdict>): Verdict {
    var found := LastFor(provided, Lower(verifier));
    if found.Some? then found.value else Verdict(verifier, false, 0)
  }

  /** Two characters are the same letter of the Latin alphabet, or the same character. */
  predicate SameLetter(a: char, b: char) {
    a == b || ('A' <= a <= 'Z' && b as int == a as int + 32) || ('A' <= b <= 'Z' && a as int == b as int + 32)
  }

  lemma SameLetterExactly(a: string, b: string, i: nat)
    requires i < |a| == |b|
    ensures Lower(a)[i] == Lower(b)[i] <==> SameLetter(a[i], b[i])
  {
    assert Lower(a)[i] as int == if 'A' <= a[i] <= 'Z' then a[i] as int + 32 else a[i] as int;
    assert Lower(b)[i] as int == if 'A' <= b[i] <= 'Z' then b[i] as int + 32 else b[i] as int;
  }

  /** Two addresses have the same key exactly if they differ at most in the case of Latin letters. */
  lemma SameKeyExactly(a: string, b: string)
    ensures Lower(a) == Lower(b) <==> |a| == |b| && forall i :: 0 <= i < |a| ==> SameLetter(a[i], b[i])
  {
    assert |Lower(a)| == |a| && |Lower(b)| == |b|;
    if |a| == |b| {
      forall i | 0 <= i < |a| ensures Lower(a)[i] == Lower(b)[i] <==> SameLetter(a[i], b[i]) {
        SameLetterExactly(a, b, i);
      }
    }
  }

  /** The last verdict under a verifier's key is the one that counts. */
  lemma {:induction false} LastVerdictCounts(verifier: string, provided: seq<Verdict>, i: nat)
    requires i < |provided| && Lower(provided[i].address) == Lower(verifier)
    requires forall j :: i < j < |provided| ==> Lower(provided[j].address) != Lower(verifier)
    ensures VerdictOf(verifier, provided) == provided[i]
  {
    var n := |provided| - 1;
    if i < n {
      LastVerdictCounts(verifier, provided[..n], i);
    }
  }

  /** A verifier without one counts as rejecting, with no confidence. */
  lemma {:induction false} MissingVerdictRejects(verifier: string, provided: seq<Verdict>)
    requires forall i :: 0 <= i < |provided| ==> Lower(provided[i].address) != Lower(verifier)
    ensures VerdictOf(verifier, provided) == Verdict(verifier, false, 0)
  {
    if provided != [] {
      MissingVerdictRejects(verifier, provided[..|provided| - 1]);
    }
  }

  function VerdictsOf(verifiers: seq<string>, provided: seq<Verdict>): (verdicts: seq<Verdict>)
    ensures |verdicts| == |verifiers|
  {
    seq(|verifiers|, i requires 0 <= i < |verifiers| => VerdictOf(verifiers[i], provided))
  }

  /** The verifiers, by position, that really sent a confirming verdict. */
  function Confirming(verifiers: seq<string>, provided: seq<Verdict>): set<nat> {
    set i | 0 <= i < |verifiers| && LastFor(provided, Lower(verifiers[i])).Some? && LastFor(provided, Lower(verifiers[i])).value.accepted
  }

  function Confirms(verdicts: seq<Verdict>): nat {
    if verdicts == [] then 0
    else Confirms(verdicts[..|verdicts| - 1]) + if verdicts[|verdicts| - 1].accepted then 1 else 0
  }

  function ConfidenceSum(verdicts: seq<Verdict>): nat {
    if verdicts == [] then 0
    else ConfidenceSum(verdicts[..|verdicts| - 1]) + verdicts[|verdicts| - 1].confidence
  }

  lemma {:induction false} ConfidencesAreSummed(verdicts: seq<Verdict>)
    ensures ConfidenceSum(verdicts) == Sum(seq(|verdicts|, i requires 0 <= i < |verdicts| => verdicts[i].confidence))
  {
    if verdicts != [] {
      var n := |verdicts| - 1;
      ConfidencesAreSummed(verdicts[..n]);
      var all := seq(|verdicts|, i requires 0 <= i < |verdicts| => verdicts[i].confidence);
      var most := seq(|verdicts[..n]|, i requires 0 <= i < |verdicts[..n]| => verdicts[..n][i].confidence);
      assert all == most + [verdicts[n].confidence];
      SumOfBoth(most, [verdicts[n].confidence]);
    }
  }

  lemma {:induction false} ConfirmsAreConfirming(verifiers: seq<string>, provided: seq<Verdict>)
    ensures Confirms(VerdictsOf(verifiers, provided)) == |Confirming(verifiers, provided)| <= |verifiers|
  {
    if verifiers == [] {
      assert Confirming(verifiers, provided) == {};
    } else {
      var n := |verifiers| - 1;
      ConfirmsAreConfirming(verifiers[..n], provided);
      assert VerdictsOf(verifiers, provided)[..n] == VerdictsOf(verifiers[..n], provided);
      assert Confirming(verifiers, provided) ==
             Confirming(verifiers[..n], provided) + if VerdictOf(verifiers[n], provided).accepted then {n} else {};
    }
  }

  // --- Rounding ----------------------------------------------------------------------

  /** Python's `round` of the exact quotient: to the nearest integer, ties to the even one. */
  function RoundHalfEven(sum: nat, count: nat): nat
    requires count > 0
  {
    var q, r := sum / count, sum % count;
    if 2 * r < count || (2 * r == count && q % 2 == 0) then q else q + 1
  }

  lemma RoundIsNearest(sum: nat, count: nat)
    requires count > 0
    ensures
      var q: int := RoundHalfEven(sum, count);
      var error: int := 2 * (q * count - sum);
      && 0 - count <= error <= count
      && (error == count || error == 0 - count ==> q % 2 == 0)
  {
    var q, r := sum / count, sum % count;
    assert sum == q * count + r;
    assert (q + 1) * count == q * count + count;
  }

  /** Rounding never leaves a range with integer ends. */
  lemma RoundStaysWithin(sum: nat, count: nat, low: nat, high: nat)
    requires count > 0 && low * count <= sum <= high * count
    ensures low <= RoundHalfEven(sum, count) <= high
  {
    QuotientWithin(sum, count, low, high);
  }

  lemma {:induction false} SumStaysWithin(verdicts: seq<Verdict>, low: nat, high: nat)
    requires forall v :: v in verdicts ==> low <= v.confidence <= high
    ensures low * |verdicts| <= ConfidenceSum(verdicts) <= high * |verdicts|
  {
    if verdicts != [] {
      var n := |verdicts| - 1;
      assert verdicts[n] in verdicts && forall v :: v in verdicts[..n] ==> v in verdicts;
      SumStaysWithin(verdicts[..n], low, high);
      OneMore(low, n);
      OneMore(high, n);
    }
  }

  /** The confidence that is reported lies between the least and the greatest that went in, zero for a missing verdict. */
  lemma ConfidenceIsBetween(leader: nat, verdicts: seq<Verdict>, low: nat, high: nat)
    requires low <= leader <= high && forall v :: v in verdicts ==> low <= v.confidence <= high
    ensures low <= RoundHalfEven(leader + ConfidenceSum(verdicts), |verdicts| + 1) <= high
  {
    SumStaysWithin(verdicts, low, high);
    OneMore(low, |verdicts|);
    OneMore(high, |verdicts|);
    RoundStaysWithin(leader + ConfidenceSum(verdicts), |verdicts| + 1, low, high);
  }

  // --- Thresholds --------------------------------------------------------------------

  /** At least as many verifiers confirm as do not. */
  predicate RiskAccepts(confirms: nat, verifiers: nat) {
    confirms >= verifiers - confirms
  }

  /** The text rule for the same nodes: the leader and the confirming verifiers hold one hash. */
  predicate TextAccepts(confirms: nat, verifiers: nat) {
    confirms + 1 >= Required(verifiers + 1)
  }

  /** Counting the leader, the risk rule asks for a strict majority of all nodes, and never for more than the text rule. */
  lemma RiskIsStrictMajority(confirms: nat, verifiers: nat)
    requires confirms <= verifiers
    ensures RiskAccepts(confirms, verifiers) <==> 2 * (confirms + 1) > verifiers + 1
    ensures TextAccepts(confirms, verifiers) ==> RiskAccepts(confirms, verifiers)
  {
    RequiredIsCeiling(verifiers + 1, confirms + 1);
  }

  /** Both rules accept the same counts for exactly these numbers of verifiers. */
  ghost predicate SameRule(verifiers: nat) {
    forall confirms :: 0 <= confirms <= verifiers ==> (RiskAccepts(confirms, verifiers) <==> TextAccepts(confirms, verifiers))
  }

  lemma RulesCoincideExactly(verifiers: nat)
    ensures SameRule(verifiers) <==> verifiers in {0, 1, 2, 3, 5}
  {
    var least := (verifiers + 1) / 2;
    RequiredIsCeiling(verifiers + 1, least + 1);
    assert RiskAccepts(least, verifiers);
    if verifiers in {0, 1, 2, 3, 5} {
      forall confirms | 0 <= confirms <= verifiers ensures RiskAccepts(confirms, verifiers) <==> TextAccepts(confirms, verifiers) {
        RequiredIsCeiling(verifiers + 1, confirms + 1);
      }
    } else {
      assert !TextAccepts(least, verifiers);
    }
  }

  // --- The aggregator ----------------------------------------------------------------

  method IndexByAddress(provided: seq<Verdict>) returns (byAddress: map<string, Verdict>)
    ensures forall key :: key in byAddress <==> LastFor(provided, key).Some?
    ensures forall key :: key in byAddress ==> LastFor(provided, key) == Some(byAddress[key])
  {
    byAddress := map[];
    for i := 0 to |provided|
      invariant forall key :: key in byAddress <==> LastFor(provided[..i], key).Some?
      invariant forall key :: key in byAddress ==> LastFor(provided[..i], key) == Some(byAddress[key])
    {
      assert provided[..i + 1][..i] == provided[..i];
      byAddress := byAddress[Lower(provided[i].address) := provided[i]];
    }
    assert provided[..|provided|] == provided;
  }

  /**
   * Accepts exactly when at least half of the assigned verifiers really sent a confirming
   * last verdict; nobody else's verdict counts.
   */
  method Aggregate(leaderConfidence: nat, verifiers: seq<string>, provided: seq<Verdict>) returns (a: Aggregation)
    ensures a.verdicts == VerdictsOf(verifiers, provided)
    ensures a.confirms == |Confirming(verifiers, provided)| && a.confirms + a.rejects == |verifiers|
    ensures a.accepted <==> 2 * |Confirming(verifiers, provided)| >= |verifiers|
    ensures a.confidence == RoundHalfEven(leaderConfidence + ConfidenceSum(a.verdicts), |verifiers| + 1)
  {
    var byAddress := IndexByAddress(provided);
    var verdicts := [];
    for i := 0 to |verifiers|
      invariant verdicts == VerdictsOf(verifiers[..i], provided)
    {
      assert VerdictsOf(verifiers[..i + 1], provided) == VerdictsOf(verifiers[..i], provided) + [VerdictOf(verifiers[i], provided)];
      var key := Lower(verifiers[i]);
      if key in byAddress {
        verdicts := verdicts + [byAddress[key]];
      } else {
        verdicts := verdicts + [Verdict(verifiers[i], false, 0)];
      }
    }
    assert verifiers[..|verifiers|] == verifiers;
    ConfirmsAreConfirming(verifiers, provided);
    var confirms, sum := 0, 0;
    for i := 0 to |verdicts|
      invariant confirms == Confirms(verdicts[..i]) && sum == ConfidenceSum(verdicts[..i])
    {
      assert verdicts[..i + 1][..i] == verdicts[..i];
      if verdicts[i].accepted {
        confirms := confirms + 1;
      }
      sum := sum + verdicts[i].confidence;
    }
    assert verdicts[..|verdicts|] == verdicts;
    var rejects := |verdicts| - confirms;
    a := Aggregation(confirms >= rejects, confirms, rejects, RoundHalfEven(leaderConfidence + sum, |verdicts| + 1), verdicts);
  }
}
