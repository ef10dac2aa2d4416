/** The two backends behind one update interface: an in-memory list and a table reached over REST. */
module DocumentStore {
  import opened Prelude
  import opened Documents

  datatype Increment = Increment(key: string, delta: int)

  /** An update document: `$set`, `$inc` and `$setOnInsert`, each in its own order. */
  datatype Update = Update(sets: seq<Assignment>, incs: seq<Increment>, onInsert: seq<Assignment>)

  datatype Backend = InMemory | Table

  datatype Reply = Updated(matched: nat) | Inserted(id: Json) | NotANumber

  // --- Matching ----------------------------------------------------------------------

  predicate Scalar(j: Json) {
    j.Bool? || j.Number? || j.Text?
  }

  /** Queries by equality with plain values. */
  predicate ScalarQuery(query: Row) {
    forall k :: k in query ==> Scalar(query[k])
  }

  /** In memory a list column matches each of its items. */
  predicate MatchesValue(b: Backend, stored: Json, wanted: Json) {
    if b == InMemory && stored.List? then wanted in stored.items else stored == wanted
  }

  predicate Matches(b: Backend, row: Row, query: Row) {
    forall k :: k in query ==> k in row && MatchesValue(b, row[k], query[k])
  }

  function FirstMatch(b: Backend, rows: seq<Row>, query: Row): (i: nat)
    ensures i <= |rows|
    ensures i < |rows| ==> Matches(b, rows[i], query)
    ensures forall k :: 0 <= k < i ==> !Matches(b, rows[k], query)
  {
    if rows == [] || Matches(b, rows[0], query) then 0 else 1 + FirstMatch(b, rows[1..], query)
  }

  // --- Applying an update in memory --------------------------------------------------

  /** What an increment may be added to; Python counts truth values as 0 and 1. */
  function AsNumber(j: Json): Option<int> {
    match j
    case Number(n) => Some(n)
    case Bool(b) => Some(if b then 1 else 0)
    case _ => None
  }

  function Summand(row: Row, key: string): Option<int> {
    if key in row then AsNumber(row[key]) else Some(0)
  }

  /** Literal keys, one after the other; fails on the first field that is no number. */
  function IncAll(row: Row, incs: seq<Increment>): Option<Row> {
    if incs == [] then Some(row)
    else
      var before, last := IncAll(row, incs[..|incs| - 1]), incs[|incs| - 1];
      if before.None? || Summand(before.value, last.key).None? then None
      else Some(before.value[last.key := Number(Summand(before.value, last.key).value + last.delta)])
  }

  function DefaultAll(row: Row, sets: seq<Assignment>): Row {
    if sets == [] then row
    else
      var before, last := DefaultAll(row, sets[..|sets| - 1]), sets[|sets| - 1];
      if last.key in before then before else before[last.key := last.value]
  }

  function Applied(row: Row, u: Update): Option<Row> {
    var counted := IncAll(SetAll(row, u.sets), u.incs);
    if counted.None? then None else Some(DefaultAll(counted.value, u.onInsert))
  }

  function WithId(row: Row, id: string): Row {
    if "id" in row then row else row["id" := Text(id)]
  }

  function InMemoryUpdate(rows: seq<Row>, query: Row, u: Update, upsert: bool, id: string): (seq<Row>, Reply) {
    var i := FirstMatch(InMemory, rows, query);
    if i < |rows| then
      var row := Applied(rows[i], u);
      if row.None? then (rows, NotANumber) else (rows[i := row.value], Updated(1))
    else if upsert then
      var row := Applied(query, u);
      if row.None? then (rows, NotANumber)
      else (rows + [WithId(row.value, id)], Inserted(WithId(row.value, id)["id"]))
    else (rows, Updated(0))
  }

  // --- Applying an update to the table -----------------------------------------------

  /** Assigning to an ordered dictionary: an old key keeps its place. */
  function Put(sets: seq<Assignment>, key: string, value: Json): seq<Assignment> {
    if sets == [] then [Assignment(key, value)]
    else if sets[0].key == key then [Assignment(key, value)] + sets[1..]
    else [sets[0]] + Put(sets[1..], key, value)
  }

  /** `$set` followed by the increments resolved against the row that was read. */
  function Flattened(base: Row, sets: seq<Assignment>, incs: seq<Increment>): Option<seq<Assignment>> {
    if incs == [] then Some(sets)
    else
      var before, last := Flattened(base, sets, incs[..|incs| - 1]), incs[|incs| - 1];
      if before.None? || Summand(base, last.key).None? then None
      else Some(Put(before.value, last.key, Number(Summand(base, last.key).value + last.delta)))
  }

  /** The table's own update: every matching row is overlaid. */
  function OverlayAll(rows: seq<Row>, query: Row, fields: Row): seq<Row> {
    seq(|rows|, i requires 0 <= i < |rows| => if Matches(Table, rows[i], query) then rows[i] + fields else rows[i])
  }

  function MatchCount(rows: seq<Row>, query: Row): nat {
    if rows == [] then 0
    else MatchCount(rows[..|rows| - 1], query) + if Matches(Table, rows[|rows| - 1], query) then 1 else 0
  }

  function TableUpdate(rows: seq<Row>, query: Row, u: Update, upsert: bool, id: string): (seq<Row>, Reply) {
    var i := FirstMatch(Table, rows, query);
    var flat := Flattened(if i < |rows| then rows[i] else map[], u.sets, u.incs);
    if i == |rows| && !upsert then (rows, Updated(0))
    else if flat.None? then (rows, NotANumber)
    else if i < |rows| && flat.value != [] then
      (OverlayAll(rows, query, Plan(rows[i], flat.value)), Updated(MatchCount(rows, query)))
    else if upsert then
      var row := WithId(SetAll(SetAll(query, flat.value), u.onInsert), id);
      (rows + [row], Inserted(row["id"]))
    else (rows, Updated(0))
  }

  /** On the table, such a key reaches into the first matching row, and its top-level field alone changes. */
  lemma TableUpdateNests(rows: seq<Row>, query: Row, upsert: bool, id: string, a: string, b: string, c: string, value: Json)
    requires '.' !in a && '.' !in b && '.' !in c && FirstMatch(Table, rows, query) < |rows|
    ensures
      var i := FirstMatch(Table, rows, query);
      var (after, reply) := TableUpdate(rows, query, Update([Assignment(a + "." + b + "." + c, value)], [], []), upsert, id);
      && reply == Updated(MatchCount(rows, query)) && |after| == |rows| && Nests(rows[i], after[i], a, b, c, value)
  {
    var i, sets := FirstMatch(Table, rows, query), [Assignment(a + "." + b + "." + c, value)];
    DottedKeyWritesNested(rows[i], a, b, c, value);
    PlanIsAssignment(rows[i], sets);
    assert Flattened(rows[i], sets, []) == Some(sets);
  }

  /** What one increment does: a missing field counts as zero, a truth value as zero or one, and anything else fails. */
  lemma IncrementExactly(row: Row, key: string, delta: int)
    ensures
      var after := IncAll(row, [Increment(key, delta)]);
      && (key !in row ==> after == Some(row[key := Number(delta)]))
      && (key in row && row[key].Number? ==> after == Some(row[key := Number(row[key].number + delta)]))
      && (key in row && row[key] == Bool(true) ==> after == Some(row[key := Number(delta + 1)]))
      && (key in row && row[key] == Bool(false) ==> after == Some(row[key := Number(delta)]))
      && (key in row && !row[key].Number? && !row[key].Bool? ==> after.None?)
  {
    assert [Increment(key, delta)][..0] == [];
  }

  /** The operators apply one after the other: a field is set, then incremented, and then no longer absent. */
  lemma OperatorsInOrder(row: Row, key: string, n: int, delta: int, other: Json)
    ensures
      var sets, incs, defaults := [Assignment(key, Number(n))], [Increment(key, delta)], [Assignment(key, other)];
      && Applied(row, Update(sets, incs, defaults)) == Some(row[key := Number(n + delta)])
      && Applied(row, Update([], [], defaults)) == Some(if key in row then row else row[key := other])
      && Applied(row, Update([], [], [])) == Some(row)
  {
    assert [Assignment(key, Number(n))][..0] == [] && [Assignment(key, other)][..0] == [];
    IncrementExactly(row[key := Number(n)], key, delta);
    assert SetAll(row, [Assignment(key, Number(n))]) == row[key := Number(n)];
    assert row[key := Number(n)][key := Number(n + delta)] == row[key := Number(n + delta)];
    DefaultOnce(row, key, other);
    DefaultOnce(row[key := Number(n + delta)], key, other);
    assert SetAll(row, []) == row && IncAll(row, []) == Some(row);
  }

  lemma DefaultOnce(row: Row, key: string, other: Json)
    ensures DefaultAll(row, [Assignment(key, other)]) == if key in row then row else row[key := other]
  {
    assert [Assignment(key, other)][..0] == [] && DefaultAll(row, []) == row;
  }

  /** The reply to an update in memory, and which rows it changes. */
  lemma InMemoryUpdateExactly(rows: seq<Row>, query: Row, u: Update, upsert: bool, id: string)
    ensures
      var i, (after, reply) := FirstMatch(InMemory, rows, query), InMemoryUpdate(rows, query, u, upsert, id);
      && (i < |rows| && Applied(rows[i], u).Some? ==>
            after == rows[..i] + [Applied(rows[i], u).value] + rows[i + 1..] && reply == Updated(1))
      && (i == |rows| && !upsert ==> after == rows && reply == Updated(0))
      && (i == |rows| && upsert && Applied(query, u).Some? ==>
            && |after| == |rows| + 1 && after[..|rows|] == rows
            && "id" in after[|rows|] && reply == Inserted(after[|rows|]["id"])
            && var row := Applied(query, u).value; after[|rows|] == if "id" in row then row else row["id" := Text(id)])
      && (Applied(if i < |rows| then rows[i] else query, u).None? && (i < |rows| || upsert) ==> after == rows && reply == NotANumber)
  {
  }

  /** The table's reply counts the rows that match, and nothing happens to a table without one unless asked. */
  lemma {:induction false} MatchCountIsExact(rows: seq<Row>, query: Row)
    ensures MatchCount(rows, query) == |Matching(rows, query)|
  {
    if rows != [] {
      var n := |rows| - 1;
      MatchCountIsExact(rows[..n], query);
      MatchingLast(rows, query);
    }
  }

  /** The positions of the rows that match. */
  function Matching(rows: seq<Row>, query: Row): set<nat> {
    set i | 0 <= i < |rows| && Matches(Table, rows[i], query)
  }

  lemma MatchingLast(rows: seq<Row>, query: Row)
    requires rows != []
    ensures
      var n := |rows| - 1;
      n !in Matching(rows[..n], query)
      && Matching(rows, query) == Matching(rows[..n], query) + if Matches(Table, rows[n], query) then {n} else {}
  {
    var n := |rows| - 1;
    assert forall i :: 0 <= i < n ==> rows[..n][i] == rows[i];
  }

  lemma TableUpdateExactly(rows: seq<Row>, query: Row, u: Update, upsert: bool, id: string)
    ensures
      var i, (after, reply) := FirstMatch(Table, rows, query), TableUpdate(rows, query, u, upsert, id);
      && (i == |rows| && !upsert ==> after == rows && reply == Updated(0))
      && (i < |rows| && u.sets == [] && u.incs == [] && !upsert ==> after == rows && reply == Updated(0))
      && (reply.Inserted? ==> upsert && |after| == |rows| + 1 && after[..|rows|] == rows
                              && "id" in after[|rows|] && reply.id == after[|rows|]["id"])
      && (reply == NotANumber ==> after == rows)
      && (reply.Updated? && after != rows ==> reply.matched == MatchCount(rows, query))
  {
  }

  /** No update touches a row that does not match. */
  lemma OtherRowsStay(rows: seq<Row>, query: Row, u: Update, upsert: bool, id: string, k: nat)
    requires k < |rows| && !Matches(Table, rows[k], query)
    ensures k < |TableUpdate(rows, query, u, upsert, id).0| && TableUpdate(rows, query, u, upsert, id).0[k] == rows[k]
  {
  }
}
