/** The pool of active nodes that feeds the selector: joining two collections, screening, listing a set. */
module NodePool {
  import opened Prelude
  import opened NodeSelector

  datatype Runtime = Runtime(updatedAt: Option<real>, registeredAt: Option<real>)

  /** A stored operator; absent fields are `None`. */
  datatype Operator = Operator(
    active: Option<bool>,
    tiers: Option<seq<int>>,
    models: Option<seq<string>>,
    zdr: Option<bool>,
    attestation: Option<string>,
    expires: Option<real>,
    accepted: Option<int>,
    rejected: Option<int>,
    heartbeat: Option<real>)

  datatype Unified = Unified(
    active: bool,
    tiers: seq<int>,
    models: Option<seq<string>>,
    zdr: bool,
    attestation: string,
    expires: Option<real>,
    accepted: int,
    rejected: int,
    heartbeat: real)

  /** Both collections by checksum address, and what the chain answers about each address. */
  datatype Registry = Registry(
    runtimes: map<string, Runtime>,
    operators: map<string, Operator>,
    attested: set<string>,
    failures: map<string, int>,
    scores: map<string, int>)

  datatype Settings = Settings(mockChain: bool, graceSeconds: real)

  datatype Demand = Demand(minTier: int, zdrRequired: bool, now: real)

  datatype Screening = Included | Excluded | NoTiers

  function Or<T>(stored: Option<T>, other: T): T {
    if stored.Some? then stored.value else other
  }

  const DEFAULT_OPERATOR := Operator(None, None, None, None, None, None, None, None, None)

  /** The overlay: defaults, then the runtime's heartbeat, then every field the operator has. */
  function Unify(r: Registry, address: string, now: real): Unified {
    var beat := if address in r.runtimes then Or(r.runtimes[address].updatedAt, Or(r.runtimes[address].registeredAt, now)) else now;
    var o := if address in r.operators then r.operators[address] else DEFAULT_OPERATOR;
    Unified(Or(o.active, true), Or(o.tiers, [0]), o.models, Or(o.zdr, false), Or(o.attestation, "mock"), o.expires,
            Or(o.accepted, 0), Or(o.rejected, 0), Or(o.heartbeat, beat))
  }

  /** The checks in the order they are made; a node without any tier makes the listing fail. */
  function Screen(r: Registry, settings: Settings, demand: Demand, address: string): Screening {
    var u := Unify(r, address, demand.now);
    if !u.active then Excluded
    else if u.tiers == [] then NoTiers
    else if forall t :: t in u.tiers ==> t < demand.minTier then Excluded
    else if demand.zdrRequired && !u.zdr then Excluded
    else if demand.now - u.heartbeat > settings.graceSeconds && !(u.expires.Some? && u.expires.value > demand.now) then Excluded
    else if address in r.failures && r.failures[address] >= 3 then Excluded
    else if settings.mockChain || u.attestation == "mock" || address in r.attested then Included
    else Excluded
  }

  /** A heartbeat within the grace period, or else an attestation that has not expired. */
  predicate Alive(u: Unified, settings: Settings, now: real) {
    now - u.heartbeat <= settings.graceSeconds || (u.expires.Some? && u.expires.value > now)
  }

  /** A node is listed exactly if it meets every demand; the order of the checks decides nothing but the failure on missing tiers. */
  lemma IncludedExactly(r: Registry, settings: Settings, demand: Demand, address: string)
    ensures
      var u := Unify(r, address, demand.now);
      && (Screen(r, settings, demand, address) == Included <==>
            && u.active && (exists t :: t in u.tiers && t >= demand.minTier)
            && (demand.zdrRequired ==> u.zdr)
            && Alive(u, settings, demand.now)
            && (address in r.failures ==> r.failures[address] < 3)
            && (settings.mockChain || u.attestation == "mock" || address in r.attested))
      && (Screen(r, settings, demand, address) == NoTiers <==> u.active && u.tiers == [])
  {
    var u := Unify(r, address, demand.now);
    if u.tiers != [] {
      assert u.tiers[0] in u.tiers;
    }
  }

  /**
   * A node that only registered itself counts as tier 0, without data retention guarantees,
   * mock-attested and as alive as its last heartbeat.
   */
  lemma SelfRegisteredExactly(r: Registry, settings: Settings, demand: Demand, address: string, beat: real)
    requires address in r.runtimes && r.runtimes[address].updatedAt == Some(beat) && address !in r.operators
    ensures Screen(r, settings, demand, address) == Included <==>
              && demand.minTier <= 0 && !demand.zdrRequired
              && demand.now - beat <= settings.graceSeconds
              && (address in r.failures ==> r.failures[address] < 3)
  {
    IncludedExactly(r, settings, demand, address);
    var tiers := Unify(r, address, demand.now).tiers;
    assert tiers == [0] && 0 in tiers;
  }

  /** A list of exactly the nodes that pass, each once, in some order. */
  ghost predicate Lists(r: Registry, settings: Settings, demand: Demand, active: seq<string>) {
    && Distinct(active)
    && forall a :: a in active <==> (a in r.runtimes || a in r.operators) && Screen(r, settings, demand, a) == Included
  }

  /** Iterating over a set of addresses, in whatever order it comes. */
  method GetActiveNodes(r: Registry, settings: Settings, demand: Demand) returns (active: Option<seq<string>>)
    ensures active.None? <==> exists a :: (a in r.runtimes || a in r.operators) && Screen(r, settings, demand, a) == NoTiers
    ensures active.Some? ==> Lists(r, settings, demand, active.value)
  {
    var all := r.runtimes.Keys + r.operators.Keys;
    var listed := [];
    var rest := all;
    while rest != {}
      invariant rest <= all && Distinct(listed)
      invariant forall a :: a in all && a !in rest ==> Screen(r, settings, demand, a) != NoTiers
      invariant forall a :: a in listed <==> a in all && a !in rest && Screen(r, settings, demand, a) == Included
      decreases |rest|
    {
      var a :| a in rest;
      rest := rest - {a};
      match Screen(r, settings, demand, a)
      case NoTiers => return None;
      case Excluded =>
      case Included =>
        DistinctAppend(listed, a);
        listed := listed + [a];
    }
    return Some(listed);
  }

  function SnapshotOf(r: Registry, settings: Settings, address: string, now: real): Snapshot {
    var u := Unify(r, address, now);
    var score := if settings.mockChain then Max(u.accepted, 1) else if address in r.scores then r.scores[address] else 0;
    Snapshot(address, score * 100, u.accepted, u.rejected, if u.models == Some([]) then None else u.models)
  }

  function Snapshots(r: Registry, settings: Settings, active: seq<string>, now: real): (s: seq<Snapshot>)
    ensures |s| == |active| && forall i :: 0 <= i < |s| ==> s[i].address == active[i]
  {
    seq(|active|, i requires 0 <= i < |active| => SnapshotOf(r, settings, active[i], now))
  }

  /**
   * What a snapshot says of a node: on a mock chain a hundred times its accepted tasks, at
   * least a hundred, otherwise a hundred times its score on the chain; the stored counts,
   * with zero for a missing one; and its models unless it lists none.
   */
  lemma SnapshotIsExact(r: Registry, settings: Settings, address: string, now: real)
    ensures
      var s := SnapshotOf(r, settings, address, now);
      var known := address in r.operators;
      && s.address == address
      && s.accepted == (if known && r.operators[address].accepted.Some? then r.operators[address].accepted.value else 0)
      && s.rejected == (if known && r.operators[address].rejected.Some? then r.operators[address].rejected.value else 0)
      && (settings.mockChain && s.accepted >= 1 ==> s.reputation == 100 * s.accepted)
      && (settings.mockChain && s.accepted < 1 ==> s.reputation == 100)
      && (!settings.mockChain && address in r.scores ==> s.reputation == 100 * r.scores[address])
      && (!settings.mockChain && address !in r.scores ==> s.reputation == 0)
      && (s.models.Some? <==> known && r.operators[address].models.Some? && r.operators[address].models.value != [])
      && (s.models.Some? ==> s.models == r.operators[address].models)
  {
  }

  /** A node that an operator has described is screened by what is stored about it, field by field. */
  lemma OperatorExactly(r: Registry, settings: Settings, demand: Demand, address: string)
    requires address in r.operators
    requires
      var o := r.operators[address];
      o.active.Some? && o.tiers.Some? && o.zdr.Some? && o.attestation.Some? && o.heartbeat.Some?
    ensures
      var o := r.operators[address];
      Screen(r, settings, demand, address) == Included <==>
        && o.active.value && (exists t :: t in o.tiers.value && t >= demand.minTier)
        && (demand.zdrRequired ==> o.zdr.value)
        && (demand.now - o.heartbeat.value <= settings.graceSeconds || (o.expires.Some? && o.expires.value > demand.now))
        && (address in r.failures ==> r.failures[address] < 3)
        && (settings.mockChain || o.attestation.value == "mock" || address in r.attested)
  {
    IncludedExactly(r, settings, demand, address);
  }

  /** A heartbeat that no operator has stored is the runtime's last update, else its registration, else now. */
  lemma HeartbeatIsExact(r: Registry, address: string, now: real)
    requires address in r.operators ==> r.operators[address].heartbeat.None?
    ensures
      var beat := Unify(r, address, now).heartbeat;
      && (address !in r.runtimes ==> beat == now)
      && (address in r.runtimes && r.runtimes[address].updatedAt.Some? ==> beat == r.runtimes[address].updatedAt.value)
      && (address in r.runtimes && r.runtimes[address].updatedAt.None? && r.runtimes[address].registeredAt.Some? ==>
            beat == r.runtimes[address].registeredAt.value)
      && (address in r.runtimes && r.runtimes[address].updatedAt.None? && r.runtimes[address].registeredAt.None? ==> beat == now)
  {
  }

  function Without<T>(s: seq<T>, i: nat): seq<T>
    requires i < |s|
  {
    s[..i] + s[i + 1..]
  }

  lemma ContentsWithout<T>(s: seq<T>, i: nat)
    requires i < |s|
    ensures multiset(s) == multiset(Without(s, i)) + multiset{s[i]}
    ensures multiset(Without(s, i)) == multiset(s) - multiset{s[i]}
  {
    assert s == s[..i] + [s[i]] + s[i + 1..];
  }

  lemma SnapshotsWithout(r: Registry, settings: Settings, s: seq<string>, i: nat, now: real)
    requires i < |s|
    ensures multiset(Snapshots(r, settings, s, now)) ==
              multiset(Snapshots(r, settings, Without(s, i), now)) + multiset{SnapshotOf(r, settings, s[i], now)}
  {
    ContentsWithout(Snapshots(r, settings, s, now), i);
    assert Without(Snapshots(r, settings, s, now), i) == Snapshots(r, settings, Without(s, i), now);
  }

  lemma {:induction false} SameSnapshots(r: Registry, settings: Settings, one: seq<string>, other: seq<string>, now: real)
    requires multiset(one) == multiset(other)
    ensures multiset(Snapshots(r, settings, one, now)) == multiset(Snapshots(r, settings, other, now))
  {
    if one == [] {
      assert |multiset(other)| == 0 && other == [];
    } else {
      assert one[0] in multiset(other);
      var i :| 0 <= i < |other| && other[i] == one[0];
      ContentsWithout(one, 0);
      ContentsWithout(other, i);
      SameSnapshots(r, settings, Without(one, 0), Without(other, i), now);
      SnapshotsWithout(r, settings, one, 0, now);
      SnapshotsWithout(r, settings, other, i, now);
    }
  }

  /** Two lists of the same nodes, each once, are rearrangements of each other. */
  lemma {:induction false} SameMembers<T>(one: seq<T>, other: seq<T>)
    requires Distinct(one) && Distinct(other) && forall a :: a in one <==> a in other
    ensures multiset(one) == multiset(other)
  {
    forall a ensures multiset(one)[a] == multiset(other)[a] {
      CountInDistinct(one, a);
      CountInDistinct(other, a);
    }
  }

  lemma {:induction false} CountInDistinct<T>(s: seq<T>, a: T)
    requires Distinct(s)
    ensures multiset(s)[a] == if a in s then 1 else 0
  {
    if a in s {
      var i :| 0 <= i < |s| && s[i] == a;
      assert s == s[..i] + [a] + s[i + 1..];
      assert a !in s[..i] && a !in s[i + 1..];
    }
  }

  /**
   * Listing and selecting together: whatever order the set of addresses is iterated in, the
   * result is the one that every other order would give.
   */
  method SelectFromPool(r: Registry, settings: Settings, demand: Demand, verifierCount: nat, model: Option<string>, draws: seq<nat>)
    returns (result: Option<Result<Selection, SelectError>>)
    requires ValidDraws(draws, 2 * (verifierCount + 1))
    ensures result.None? <==> exists a :: (a in r.runtimes || a in r.operators) && Screen(r, settings, demand, a) == NoTiers
    ensures result.Some? ==> forall active :: Lists(r, settings, demand, active) ==>
                               result.value == Selected(Snapshots(r, settings, active, demand.now), verifierCount, model, draws)
  {
    var listed := GetActiveNodes(r, settings, demand);
    if listed.None? {
      return None;
    }
    var selected := SelectQuorum(Snapshots(r, settings, listed.value, demand.now), verifierCount, model, draws);
    forall active | Lists(r, settings, demand, active)
      ensures selected == Selected(Snapshots(r, settings, active, demand.now), verifierCount, model, draws)
    {
      SameMembers(listed.value, active);
      SameSnapshots(r, settings, listed.value, active, demand.now);
      ListingOrderIsIrrelevant(
        Snapshots(r, settings, listed.value, demand.now), Snapshots(r, settings, active, demand.now), verifierCount, model, draws);
    }
    return Some(selected);
  }
}
