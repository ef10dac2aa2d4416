/** Where the two backends agree, and that an upsert keyed by its query keeps the key unique. */
module BackendAgreement {
  import opened Prelude
  import opened Documents
  import opened DocumentStore

  predicate SetsKey(sets: seq<Assignment>, key: string) {
    sets != [] && (sets[0].key == key || SetsKey(sets[1..], key))
  }

  predicate CountsKey(incs: seq<Increment>, key: string) {
    incs != [] && (incs[|incs| - 1].key == key || CountsKey(incs[..|incs| - 1], key))
  }

  lemma {:induction false} SetsKeyAppend(sets: seq<Assignment>, a: Assignment, key: string)
    ensures SetsKey(sets + [a], key) <==> SetsKey(sets, key) || a.key == key
  {
    if sets == [] {
      assert [a][1..] == [];
    } else {
      SetsKeyAppend(sets[1..], a, key);
      assert (sets + [a])[1..] == sets[1..] + [a];
    }
  }

  lemma SetsKeyLast(sets: seq<Assignment>, key: string)
    requires sets != []
    ensures SetsKey(sets, key) <==> SetsKey(sets[..|sets| - 1], key) || sets[|sets| - 1].key == key
  {
    SetsKeyAppend(sets[..|sets| - 1], sets[|sets| - 1], key);
    assert sets == sets[..|sets| - 1] + [sets[|sets| - 1]];
  }

  lemma {:induction false} CountsKeyAt(incs: seq<Increment>, i: nat)
    requires i < |incs|
    ensures CountsKey(incs, incs[i].key)
  {
    if i < |incs| - 1 {
      CountsKeyAt(incs[..|incs| - 1], i);
    }
  }

  /** Every increment is on an undotted key of its own that is not also set. */
  predicate OwnKeys(sets: seq<Assignment>, incs: seq<Increment>) {
    incs == [] ||
    (var n := |incs| - 1;
     && OwnKeys(sets, incs[..n])
     && !Dotted(incs[n].key) && !SetsKey(sets, incs[n].key) && !CountsKey(incs[..n], incs[n].key))
  }

  /** Only `$set` and `$inc`, on disjoint undotted keys. */
  ghost predicate FlatUpdate(u: Update) {
    u.onInsert == [] && OwnKeys(u.sets, u.incs) && forall a :: a in u.sets ==> !Dotted(a.key)
  }

  /** No list stands in a column that the query looks at. */
  ghost predicate ScalarColumns(rows: seq<Row>, keys: set<string>) {
    forall r: Row, k: string :: r in rows && k in keys && k in r ==> !r[k].List?
  }

  ghost predicate AtMostOneMatch(rows: seq<Row>, query: Row) {
    forall i, j :: 0 <= i < |rows| && 0 <= j < |rows| && Matches(Table, rows[i], query) && Matches(Table, rows[j], query) ==> i == j
  }

  /**
   * Where the backends part: an empty update with upsert on a row that exists is inserted
   * again by the table, and an increment of a queried column starts from the queried value
   * in memory but from zero in the table.
   */
  predicate Diverges(rows: seq<Row>, query: Row, u: Update, upsert: bool) {
    && upsert
    && if FirstMatch(Table, rows, query) < |rows| then u.sets == [] && u.incs == []
       else exists d :: d in u.incs && d.key in query && AsNumber(query[d.key]) != Some(0)
  }

  lemma {:induction false} SameFirstMatch(rows: seq<Row>, query: Row)
    requires ScalarColumns(rows, query.Keys)
    ensures FirstMatch(InMemory, rows, query) == FirstMatch(Table, rows, query)
  {
    if rows != [] {
      assert forall k :: k in query && k in rows[0] ==> !rows[0][k].List?;
      SameFirstMatch(rows[1..], query);
    }
  }

  // --- Flat updates as maps ----------------------------------------------------------

  lemma {:induction false} PutNewKey(sets: seq<Assignment>, key: string, value: Json)
    requires !SetsKey(sets, key)
    ensures Put(sets, key, value) == sets + [Assignment(key, value)]
  {
    if sets != [] {
      PutNewKey(sets[1..], key, value);
    }
  }

  lemma {:induction false} SetAllKeys(row: Row, sets: seq<Assignment>, key: string)
    ensures key in SetAll(row, sets) <==> key in row || SetsKey(sets, key)
    ensures !SetsKey(sets, key) && key in row ==> SetAll(row, sets)[key] == row[key]
  {
    if sets != [] {
      var n := |sets| - 1;
      SetAllKeys(row, sets[..n], key);
      SetsKeyLast(sets, key);
    }
  }

  lemma {:induction false} AssignUndotted(row: Row, sets: seq<Assignment>)
    requires forall a :: a in sets ==> !Dotted(a.key)
    ensures Assign(row, sets) == SetAll(row, sets)
  {
    if sets != [] {
      var n := |sets| - 1;
      assert sets[n] in sets;
      AssignUndotted(row, sets[..n]);
      SplitByDots(sets[n].key);
    }
  }

  lemma {:induction false} PutKeys(sets: seq<Assignment>, key: string, value: Json, other: string)
    ensures SetsKey(Put(sets, key, value), other) <==> SetsKey(sets, other) || other == key
  {
    if sets != [] && sets[0].key != key {
      PutKeys(sets[1..], key, value, other);
    }
  }

  lemma {:induction false} FlattenedKeys(base: Row, sets: seq<Assignment>, incs: seq<Increment>, key: string)
    requires Flattened(base, sets, incs).Some?
    ensures SetsKey(Flattened(base, sets, incs).value, key) <==> SetsKey(sets, key) || CountsKey(incs, key)
  {
    if incs != [] {
      var n := |incs| - 1;
      FlattenedKeys(base, sets, incs[..n], key);
      PutKeys(Flattened(base, sets, incs[..n]).value, incs[n].key, Number(Summand(base, incs[n].key).value + incs[n].delta), key);
    }
  }

  /** Each further increment adds one assignment at the end. */
  lemma FlattenedStep(base: Row, sets: seq<Assignment>, incs: seq<Increment>)
    requires incs != [] && OwnKeys(sets, incs) && Flattened(base, sets, incs).Some?
    ensures
      var last := incs[|incs| - 1];
      var before := Flattened(base, sets, incs[..|incs| - 1]);
      && before.Some? && !SetsKey(before.value, last.key) && Summand(base, last.key).Some?
      && Flattened(base, sets, incs).value ==
           before.value + [Assignment(last.key, Number(Summand(base, last.key).value + last.delta))]
  {
    var n := |incs| - 1;
    FlattenedKeys(base, sets, incs[..n], incs[n].key);
    PutNewKey(Flattened(base, sets, incs[..n]).value, incs[n].key, Number(Summand(base, incs[n].key).value + incs[n].delta));
  }

  lemma SetAllAppend(row: Row, sets: seq<Assignment>, a: Assignment)
    ensures SetAll(row, sets + [a]) == SetAll(row, sets)[a.key := a.value]
  {
    assert (sets + [a])[..|sets|] == sets;
  }

  lemma SummandUnset(row: Row, sets: seq<Assignment>, key: string)
    requires !SetsKey(sets, key)
    ensures Summand(SetAll(row, sets), key) == Summand(row, key)
  {
    SetAllKeys(row, sets, key);
  }

  /** One increment in place that finds a number is one assignment at the end. */
  lemma IncrementIsAssignment(row: Row, start: Row, incs: seq<Increment>, before: seq<Assignment>, a: Assignment)
    requires incs != [] && incs[|incs| - 1].key == a.key && !SetsKey(before, a.key)
    requires Summand(row, a.key).Some? && a.value == Number(Summand(row, a.key).value + incs[|incs| - 1].delta)
    requires IncAll(start, incs[..|incs| - 1]) == Some(SetAll(row, before))
    ensures IncAll(start, incs) == Some(SetAll(row, before)[a.key := a.value])
  {
    SummandUnset(row, before, a.key);
  }

  lemma IncrementFails(row: Row, start: Row, incs: seq<Increment>, before: seq<Assignment>)
    requires incs != [] && !SetsKey(before, incs[|incs| - 1].key)
    requires Summand(row, incs[|incs| - 1].key).None?
    requires IncAll(start, incs[..|incs| - 1]) == Some(SetAll(row, before))
    ensures IncAll(start, incs).None?
  {
    SummandUnset(row, before, incs[|incs| - 1].key);
  }

  /** Resolved assignments and an incremented row that belong together. */
  predicate SameOutcome(row: Row, flat: Option<seq<Assignment>>, counted: Option<Row>) {
    if flat.None? then counted.None? else counted == Some(SetAll(row, flat.value))
  }

  lemma AppendedOutcome(row: Row, flat: Option<seq<Assignment>>, counted: Option<Row>, before: seq<Assignment>, a: Assignment)
    requires flat == Some(before + [a]) && counted == Some(SetAll(row, before)[a.key := a.value])
    ensures SameOutcome(row, flat, counted)
  {
    SetAllAppend(row, before, a);
  }

  /** One more increment fails on both sides, or adds the same number. */
  lemma OneMoreIncrement(base: Row, row: Row, sets: seq<Assignment>, incs: seq<Increment>, start: Row)
    requires incs != [] && OwnKeys(sets, incs)
    requires Summand(base, incs[|incs| - 1].key) == Summand(row, incs[|incs| - 1].key)
    requires Flattened(base, sets, incs[..|incs| - 1]).Some?
    requires IncAll(start, incs[..|incs| - 1]) == Some(SetAll(row, Flattened(base, sets, incs[..|incs| - 1]).value))
    ensures SameOutcome(row, Flattened(base, sets, incs), IncAll(start, incs))
  {
    var d := incs[|incs| - 1];
    var before := Flattened(base, sets, incs[..|incs| - 1]).value;
    if Flattened(base, sets, incs).Some? {
      FlattenedStep(base, sets, incs);
      var a := Assignment(d.key, Number(Summand(base, d.key).value + d.delta));
      IncrementIsAssignment(row, start, incs, before, a);
      AppendedOutcome(row, Flattened(base, sets, incs), IncAll(start, incs), before, a);
    } else {
      FlattenedKeys(base, sets, incs[..|incs| - 1], d.key);
      IncrementFails(row, start, incs, before);
    }
  }

  /** Resolving increments against the row that was read and then assigning is incrementing in place. */
  lemma {:induction false} FlattenedIsIncAll(base: Row, row: Row, sets: seq<Assignment>, incs: seq<Increment>)
    requires OwnKeys(sets, incs)
    requires forall d :: d in incs ==> Summand(base, d.key) == Summand(row, d.key)
    ensures SameOutcome(row, Flattened(base, sets, incs), IncAll(SetAll(row, sets), incs))
  {
    if incs != [] {
      var n := |incs| - 1;
      assert incs[n] in incs && forall d :: d in incs[..n] ==> d in incs;
      FlattenedIsIncAll(base, row, sets, incs[..n]);
      if Flattened(base, sets, incs[..n]).Some? {
        OneMoreIncrement(base, row, sets, incs, SetAll(row, sets));
      }
    }
  }

  lemma {:induction false} FlattenedUndotted(base: Row, sets: seq<Assignment>, incs: seq<Increment>)
    requires OwnKeys(sets, incs) && Flattened(base, sets, incs).Some?
    requires forall a :: a in sets ==> !Dotted(a.key)
    ensures forall a :: a in Flattened(base, sets, incs).value ==> !Dotted(a.key)
    ensures |Flattened(base, sets, incs).value| == |sets| + |incs|
  {
    if incs != [] {
      FlattenedUndotted(base, sets, incs[..|incs| - 1]);
      FlattenedStep(base, sets, incs);
    }
  }

  // --- Agreement on an existing row --------------------------------------------------

  lemma OverlayOnlyMatch(rows: seq<Row>, query: Row, fields: Row)
    requires AtMostOneMatch(rows, query) && FirstMatch(Table, rows, query) < |rows|
    ensures
      var i := FirstMatch(Table, rows, query);
      OverlayAll(rows, query, fields) == rows[i := rows[i] + fields]
  {
  }

  lemma AgreeOnMatch(rows: seq<Row>, query: Row, u: Update, upsert: bool, id: string)
    requires FlatUpdate(u) && ScalarColumns(rows, query.Keys) && AtMostOneMatch(rows, query)
    requires FirstMatch(Table, rows, query) < |rows|
    ensures (InMemoryUpdate(rows, query, u, upsert, id).0 == TableUpdate(rows, query, u, upsert, id).0) <==>
              !(upsert && u.sets == [] && u.incs == [])
  {
    SameFirstMatch(rows, query);
    var i := FirstMatch(Table, rows, query);
    FlattenedIsIncAll(rows[i], rows[i], u.sets, u.incs);
    var flat := Flattened(rows[i], u.sets, u.incs);
    if flat.Some? {
      FlattenedUndotted(rows[i], u.sets, u.incs);
      AssignUndotted(rows[i], flat.value);
      PlanIsAssignment(rows[i], flat.value);
      OverlayOnlyMatch(rows, query, Plan(rows[i], flat.value));
    }
  }

  // --- Agreement on a new row --------------------------------------------------------

  predicate CountsFromZero(query: Row, incs: seq<Increment>) {
    forall d :: d in incs && d.key in query ==> AsNumber(query[d.key]) == Some(0)
  }

  /** Without a base row every increment resolves to its own delta. */
  lemma {:induction false} DeltaIsStored(sets: seq<Assignment>, incs: seq<Increment>, i: nat, row: Row)
    requires OwnKeys(sets, incs) && i < |incs|
    ensures
      var flat := Flattened(map[], sets, incs);
      flat.Some? && incs[i].key in SetAll(row, flat.value) && SetAll(row, flat.value)[incs[i].key] == Number(incs[i].delta)
  {
    var n := |incs| - 1;
    NeverFails(sets, incs);
    FlattenedStep(map[], sets, incs);
    SetAllAppend(row, Flattened(map[], sets, incs[..n]).value, Assignment(incs[n].key, Number(incs[n].delta)));
    if i < n {
      CountsKeyAt(incs[..n], i);
      DeltaIsStored(sets, incs[..n], i, row);
    }
  }

  lemma {:induction false} NeverFails(sets: seq<Assignment>, incs: seq<Increment>)
    ensures Flattened(map[], sets, incs).Some?
  {
    if incs != [] {
      NeverFails(sets, incs[..|incs| - 1]);
    }
  }

  lemma CountedLast(row: Row, sets: seq<Assignment>, incs: seq<Increment>)
    requires incs != [] && OwnKeys(sets, incs) && incs[|incs| - 1].key in row
    requires IncAll(SetAll(row, sets), incs[..|incs| - 1]).Some?
    ensures
      var counted, key := IncAll(SetAll(row, sets), incs[..|incs| - 1]).value, incs[|incs| - 1].key;
      key in counted && counted[key] == row[key]
  {
    UncountedKey(SetAll(row, sets), incs[..|incs| - 1], incs[|incs| - 1].key);
    SetAllKeys(row, sets, incs[|incs| - 1].key);
  }

  /** In memory the same increment starts from what the query says. */
  lemma {:induction false} SumIsStored(row: Row, sets: seq<Assignment>, incs: seq<Increment>, i: nat)
    requires OwnKeys(sets, incs) && i < |incs| && incs[i].key in row
    requires IncAll(SetAll(row, sets), incs).Some?
    ensures AsNumber(row[incs[i].key]).Some?
    ensures incs[i].key in IncAll(SetAll(row, sets), incs).value
    ensures IncAll(SetAll(row, sets), incs).value[incs[i].key] == Number(AsNumber(row[incs[i].key]).value + incs[i].delta)
  {
    var n := |incs| - 1;
    if i == n {
      CountedLast(row, sets, incs);
    } else {
      CountsKeyAt(incs[..n], i);
      SumIsStored(row, sets, incs[..n], i);
    }
  }

  lemma {:induction false} UncountedKey(row: Row, incs: seq<Increment>, key: string)
    requires !CountsKey(incs, key) && IncAll(row, incs).Some?
    ensures key in IncAll(row, incs).value <==> key in row
    ensures key in row ==> IncAll(row, incs).value[key] == row[key]
  {
    if incs != [] {
      var n := |incs| - 1;
      UncountedKey(row, incs[..n], key);
    }
  }

  lemma InsertsAgree(query: Row, u: Update)
    requires FlatUpdate(u) && CountsFromZero(query, u.incs) && Flattened(map[], u.sets, u.incs).Some?
    ensures Applied(query, u) == Some(SetAll(SetAll(query, Flattened(map[], u.sets, u.incs).value), u.onInsert))
  {
    FlattenedIsIncAll(map[], query, u.sets, u.incs);
  }

  lemma InsertsDiffer(query: Row, u: Update, i: nat, id: string)
    requires FlatUpdate(u) && Applied(query, u).Some? && Flattened(map[], u.sets, u.incs).Some?
    requires i < |u.incs| && u.incs[i].key in query && AsNumber(query[u.incs[i].key]) != Some(0)
    ensures WithId(Applied(query, u).value, id) != WithId(SetAll(query, Flattened(map[], u.sets, u.incs).value), id)
  {
    var d := u.incs[i];
    DeltaIsStored(u.sets, u.incs, i, query);
    SumIsStored(query, u.sets, u.incs, i);
    var one := WithId(Applied(query, u).value, id);
    assert d.key in one && one[d.key] == Number(AsNumber(query[d.key]).value + d.delta);
  }

  lemma AgreeOnInsert(rows: seq<Row>, query: Row, u: Update, id: string)
    requires FlatUpdate(u) && ScalarColumns(rows, query.Keys)
    requires FirstMatch(Table, rows, query) == |rows|
    ensures (InMemoryUpdate(rows, query, u, true, id).0 == TableUpdate(rows, query, u, true, id).0) <==>
              CountsFromZero(query, u.incs)
  {
    SameFirstMatch(rows, query);
    NeverFails(u.sets, u.incs);
    if CountsFromZero(query, u.incs) {
      InsertsAgree(query, u);
    } else if Applied(query, u).Some? {
      var i :| 0 <= i < |u.incs| && u.incs[i].key in query && AsNumber(query[u.incs[i].key]) != Some(0);
      InsertsDiffer(query, u, i, id);
      assert InMemoryUpdate(rows, query, u, true, id).0[|rows|] != TableUpdate(rows, query, u, true, id).0[|rows|];
    }
  }

  /**
   * For `$set` and `$inc` on disjoint undotted keys, with or without upsert, and a query
   * that at most one row matches, both backends produce the same table, except exactly in
   * the two cases of `Diverges`.
   */
  lemma BackendsAgreeExactly(rows: seq<Row>, query: Row, u: Update, upsert: bool, id: string)
    requires ScalarQuery(query) && ScalarColumns(rows, query.Keys) && AtMostOneMatch(rows, query) && FlatUpdate(u)
    ensures (InMemoryUpdate(rows, query, u, upsert, id).0 == TableUpdate(rows, query, u, upsert, id).0) <==>
              !Diverges(rows, query, u, upsert)
  {
    SameFirstMatch(rows, query);
    if FirstMatch(Table, rows, query) < |rows| {
      AgreeOnMatch(rows, query, u, upsert, id);
    } else if upsert {
      AgreeOnInsert(rows, query, u, id);
    }
  }

  /**
   * Outside those updates, `$setOnInsert` differs too: in memory it also fills in a field
   * that a matching row lacks, in the table it leaves existing rows alone.
   */
  lemma DefaultsAgreeExactly(rows: seq<Row>, query: Row, a: Assignment, id: string)
    requires ScalarQuery(query) && ScalarColumns(rows, query.Keys)
    ensures
      var u := Update([], [], [a]);
      var i := FirstMatch(Table, rows, query);
      (InMemoryUpdate(rows, query, u, false, id).0 == TableUpdate(rows, query, u, false, id).0) <==>
        i == |rows| || a.key in rows[i]
  {
    SameFirstMatch(rows, query);
    var i := FirstMatch(Table, rows, query);
    if i < |rows| {
      assert DefaultAll(rows[i], [a][..0]) == rows[i];
      assert Applied(rows[i], Update([], [], [a])) == Some(if a.key in rows[i] then rows[i] else rows[i][a.key := a.value]);
    }
  }

  // --- Upsert keys stay unique -------------------------------------------------------

  /** Two rows show the same values in every key column. */
  predicate SameKey(one: Row, other: Row, keys: set<string>) {
    forall k :: k in keys ==> k in one && k in other && one[k] == other[k]
  }

  ghost predicate UniqueKey(rows: seq<Row>, keys: set<string>) {
    forall i, j :: 0 <= i < j < |rows| ==> !SameKey(rows[i], rows[j], keys)
  }

  /** The update writes every queried column back with the queried value, and nothing else into it. */
  ghost predicate RepeatsQuery(query: Row, u: Update) {
    && (forall k :: k in query ==> SetsKey(u.sets, k) && !CountsKey(u.incs, k))
    && (forall a :: a in u.sets && a.key in query ==> a.value == query[a.key])
  }

  lemma {:induction false} SetAllRepeats(row: Row, query: Row, sets: seq<Assignment>, k: string)
    requires k in query && SetsKey(sets, k)
    requires forall a :: a in sets && a.key == k ==> a.value == query[k]
    ensures k in SetAll(row, sets) && SetAll(row, sets)[k] == query[k]
  {
    var n := |sets| - 1;
    SetsKeyLast(sets, k);
    assert sets[n] in sets;
    if sets[n].key != k {
      SetAllRepeats(row, query, sets[..n], k);
    }
  }

  /** Whatever the row was, afterwards it shows the queried key. */
  lemma AppliedShowsKey(row: Row, query: Row, u: Update)
    requires FlatUpdate(u) && RepeatsQuery(query, u) && Applied(row, u).Some?
    ensures SameKey(Applied(row, u).value, query, query.Keys)
  {
    forall k | k in query ensures k in Applied(row, u).value && Applied(row, u).value[k] == query[k] {
      SetAllRepeats(row, query, u.sets, k);
      UncountedKey(SetAll(row, u.sets), u.incs, k);
    }
  }

  lemma ReplaceKeepsUnique(rows: seq<Row>, i: nat, row: Row, keys: set<string>)
    requires i < |rows| && UniqueKey(rows, keys) && SameKey(rows[i], row, keys)
    ensures UniqueKey(rows[i := row], keys)
  {
    var after := rows[i := row];
    forall a, b | 0 <= a < b < |after| ensures !SameKey(after[a], after[b], keys) {
      assert !SameKey(rows[a], rows[b], keys);
      var k :| k in keys && !(k in rows[a] && k in rows[b] && rows[a][k] == rows[b][k]);
    }
  }

  lemma AppendKeepsUnique(rows: seq<Row>, row: Row, query: Row)
    requires UniqueKey(rows, query.Keys) && SameKey(row, query, query.Keys)
    requires forall r :: r in rows ==> !Matches(Table, r, query)
    ensures UniqueKey(rows + [row], query.Keys)
  {
    forall i | 0 <= i < |rows| ensures !SameKey(rows[i], row, query.Keys) {
      assert !Matches(Table, rows[i], query);
    }
  }

  /** Rows with a unique key never match the same query twice. */
  lemma UniqueMatchesOnce(rows: seq<Row>, query: Row)
    requires UniqueKey(rows, query.Keys)
    ensures AtMostOneMatch(rows, query)
  {
    forall i, j | 0 <= i < j < |rows| && Matches(Table, rows[i], query) && Matches(Table, rows[j], query) ensures false {
      assert SameKey(rows[i], rows[j], query.Keys);
    }
  }

  /**
   * On both backends an upsert whose query is repeated in `$set` keeps the queried columns a
   * unique key of the table.
   */
  lemma UpsertKeepsKeyUnique(rows: seq<Row>, query: Row, u: Update, id: string)
    requires ScalarQuery(query) && query != map[] && ScalarColumns(rows, query.Keys) && FlatUpdate(u)
    requires RepeatsQuery(query, u) && UniqueKey(rows, query.Keys)
    ensures UniqueKey(InMemoryUpdate(rows, query, u, true, id).0, query.Keys)
    ensures UniqueKey(TableUpdate(rows, query, u, true, id).0, query.Keys)
  {
    UniqueMatchesOnce(rows, query);
    SameFirstMatch(rows, query);
    BackendsAgreeExactly(rows, query, u, true, id);
    var k :| k in query;
    assert SetsKey(u.sets, k) && u.sets != [];
    forall d | d in u.incs ensures d.key !in query {
      var j :| 0 <= j < |u.incs| && u.incs[j] == d;
      CountsKeyAt(u.incs, j);
    }
    assert !Diverges(rows, query, u, true);
    var i := FirstMatch(InMemory, rows, query);
    var base := if i < |rows| then rows[i] else query;
    if Applied(base, u).Some? {
      AppliedShowsKey(base, query, u);
      var row := Applied(base, u).value;
      if i < |rows| {
        ReplaceKeepsUnique(rows, i, row, query.Keys);
      } else {
        AppendKeepsUnique(rows, WithId(row, id), query);
      }
    }
  }
}
