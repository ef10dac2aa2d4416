/** The two collection classes, proved against the update functions of the store. */
module Collections {
  import opened Prelude
  import opened Documents
  import opened DocumentStore

  class InMemoryCollection {
    var documents: seq<Row>

    constructor ()
      ensures documents == []
    {
      documents := [];
    }

    method InsertOne(document: Row, id: string) returns (inserted: Json)
      modifies this
      ensures documents == old(documents) + [WithId(document, id)]
      ensures inserted == WithId(document, id)["id"]
    {
      var stored := if "id" in document then document else document["id" := Text(id)];
      documents := documents + [stored];
      inserted := stored["id"];
    }

    method FindOne(query: Row) returns (found: Option<Row>)
      requires ScalarQuery(query)
      ensures var i := FirstMatch(InMemory, documents, query);
              found == if i < |documents| then Some(documents[i]) else None
    {
      for i := 0 to |documents|
        invariant forall k :: 0 <= k < i ==> !Matches(InMemory, documents[k], query)
      {
        if Matches(InMemory, documents[i], query) {
          return Some(documents[i]);
        }
      }
      return None;
    }

    method UpdateOne(query: Row, u: Update, upsert: bool, id: string) returns (reply: Reply)
      requires ScalarQuery(query)
      modifies this
      ensures (documents, reply) == InMemoryUpdate(old(documents), query, u, upsert, id)
    {
      for i := 0 to |documents|
        invariant forall k :: 0 <= k < i ==> !Matches(InMemory, documents[k], query)
        invariant documents == old(documents)
      {
        if Matches(InMemory, documents[i], query) {
          var row := ApplyOperators(documents[i], u);
          if row.None? {
            return NotANumber;
          }
          documents := documents[i := row.value];
          return Updated(1);
        }
      }
      if upsert {
        var row := ApplyOperators(query, u);
        if row.None? {
          return NotANumber;
        }
        var stored := if "id" in row.value then row.value else row.value["id" := Text(id)];
        documents := documents + [stored];
        return Inserted(stored["id"]);
      }
      return Updated(0);
    }
  }

  method SetKeys(document: Row, sets: seq<Assignment>) returns (fields: Row)
    ensures fields == SetAll(document, sets)
  {
    fields := document;
    for k := 0 to |sets|
      invariant fields == SetAll(document, sets[..k])
    {
      assert sets[..k + 1][..k] == sets[..k];
      fields := fields[sets[k].key := sets[k].value];
    }
    assert sets[..|sets|] == sets;
  }

  method IncrementKeys(document: Row, incs: seq<Increment>) returns (row: Option<Row>)
    ensures row == IncAll(document, incs)
  {
    var fields := document;
    for k := 0 to |incs|
      invariant IncAll(document, incs[..k]) == Some(fields)
    {
      assert incs[..k + 1][..k] == incs[..k];
      var summand := Summand(fields, incs[k].key);
      if summand.None? {
        IncAllStays(document, incs, k + 1);
        return None;
      }
      fields := fields[incs[k].key := Number(summand.value + incs[k].delta)];
    }
    assert incs[..|incs|] == incs;
    return Some(fields);
  }

  method DefaultKeys(document: Row, defaults: seq<Assignment>) returns (fields: Row)
    ensures fields == DefaultAll(document, defaults)
  {
    fields := document;
    for k := 0 to |defaults|
      invariant fields == DefaultAll(document, defaults[..k])
    {
      assert defaults[..k + 1][..k] == defaults[..k];
      if defaults[k].key !in fields {
        fields := fields[defaults[k].key := defaults[k].value];
      }
    }
    assert defaults[..|defaults|] == defaults;
  }

  /** The three operators applied to one document, key by key. */
  method ApplyOperators(document: Row, u: Update) returns (row: Option<Row>)
    ensures row == Applied(document, u)
  {
    var fields := SetKeys(document, u.sets);
    var counted := IncrementKeys(fields, u.incs);
    if counted.None? {
      return None;
    }
    fields := DefaultKeys(counted.value, u.onInsert);
    return Some(fields);
  }

  /** The first increment that fails makes the whole update fail. */
  lemma {:induction false} IncAllStays(row: Row, incs: seq<Increment>, k: nat)
    requires k <= |incs| && IncAll(row, incs[..k]).None?
    ensures IncAll(row, incs).None?
    decreases |incs|
  {
    if k < |incs| {
      assert incs[..|incs| - 1][..k] == incs[..k];
      IncAllStays(row, incs[..|incs| - 1], k);
    } else {
      assert incs[..k] == incs;
    }
  }

  lemma {:induction false} FlattenedStays(base: Row, sets: seq<Assignment>, incs: seq<Increment>, k: nat)
    requires k <= |incs| && Flattened(base, sets, incs[..k]).None?
    ensures Flattened(base, sets, incs).None?
    decreases |incs|
  {
    if k < |incs| {
      assert incs[..|incs| - 1][..k] == incs[..k];
      FlattenedStays(base, sets, incs[..|incs| - 1], k);
    } else {
      assert incs[..k] == incs;
    }
  }

  /** `$set` and the resolved increments as one ordered dictionary. */
  method Flatten(base: Row, u: Update) returns (flat: Option<seq<Assignment>>)
    ensures flat == Flattened(base, u.sets, u.incs)
  {
    var entries := u.sets;
    for k := 0 to |u.incs|
      invariant Flattened(base, u.sets, u.incs[..k]) == Some(entries)
    {
      assert u.incs[..k + 1][..k] == u.incs[..k];
      var summand := Summand(base, u.incs[k].key);
      if summand.None? {
        FlattenedStays(base, u.sets, u.incs, k + 1);
        return None;
      }
      entries := Put(entries, u.incs[k].key, Number(summand.value + u.incs[k].delta));
    }
    assert u.incs[..|u.incs|] == u.incs;
    return Some(entries);
  }

  /** Assigns every key, dotted or not, into the row that was read. */
  method AssignEach(existing: Row, flat: seq<Assignment>) returns (target: Row)
    ensures target == Assign(existing, flat)
  {
    target := existing;
    for k := 0 to |flat|
      invariant target == Assign(existing, flat[..k])
    {
      assert flat[..k + 1][..k] == flat[..k];
      target := SetPath(target, Split(flat[k].key), flat[k].value);
    }
    assert flat[..|flat|] == flat;
  }

  method KeepUndotted(flat: seq<Assignment>) returns (fields: Row)
    ensures fields == Undotted(flat)
  {
    fields := map[];
    for k := 0 to |flat|
      invariant fields == Undotted(flat[..k])
    {
      assert flat[..k + 1][..k] == flat[..k];
      if !Dotted(flat[k].key) {
        fields := fields[flat[k].key := flat[k].value];
      }
    }
    assert flat[..|flat|] == flat;
  }

  /**
   * The read-modify-write for dotted keys: assign every key into the row that was read, drop
   * the dotted keys, and write their top-level fields as a whole.
   */
  method RewriteFields(existing: Row, flat: seq<Assignment>) returns (fields: Row)
    ensures fields == Plan(existing, flat)
    ensures existing + fields == Assign(existing, flat)
  {
    PlanIsAssignment(existing, flat);
    var target := AssignEach(existing, flat);
    forall a | a in flat ensures Top(a.key) in target {
      RewrittenFieldsExist(existing, flat, a);
    }
    var kept := KeepUndotted(flat);
    fields := WriteBack(kept, target, flat);
  }

  /** Every field that a dotted key reaches into is added as it stands in `target`. */
  method WriteBack(kept: Row, target: Row, flat: seq<Assignment>) returns (fields: Row)
    requires forall a :: a in flat ==> Top(a.key) in target
    ensures fields == kept + Whole(target, RewrittenFields(flat))
  {
    fields := kept;
    assert Whole(target, RewrittenFields(flat[..0])) == map[];
    for k := 0 to |flat|
      invariant fields == kept + Whole(target, RewrittenFields(flat[..k]))
    {
      var f := Top(flat[k].key);
      assert flat[k] in flat;
      RewrittenFieldsGrow(flat, k);
      if Dotted(flat[k].key) {
        WholeGrows(kept, target, RewrittenFields(flat[..k]), f);
        fields := fields[f := target[f]];
      } else {
        assert RewrittenFields(flat[..k + 1]) == RewrittenFields(flat[..k]);
      }
    }
    assert flat[..|flat|] == flat;
  }

  lemma WholeGrows(kept: Row, target: Row, fields: set<string>, f: string)
    requires f in target
    ensures kept + Whole(target, fields + {f}) == (kept + Whole(target, fields))[f := target[f]]
  {
  }

  lemma RewrittenFieldsGrow(flat: seq<Assignment>, k: nat)
    requires k < |flat|
    ensures RewrittenFields(flat[..k + 1]) == RewrittenFields(flat[..k]) + if Dotted(flat[k].key) then {Top(flat[k].key)} else {}
  {
    assert flat[..k + 1] == flat[..k] + [flat[k]];
  }

  lemma {:induction false} UndottedIsAll(flat: seq<Assignment>)
    requires forall a :: a in flat ==> !Dotted(a.key)
    ensures Undotted(flat) == SetAll(map[], flat)
  {
    if flat != [] {
      assert flat[|flat| - 1] in flat;
      UndottedIsAll(flat[..|flat| - 1]);
    }
  }

  class SupabaseCollection {
    var table: seq<Row>

    constructor ()
      ensures table == []
    {
      table := [];
    }

    method FindOne(query: Row) returns (found: Option<Row>)
      requires ScalarQuery(query)
      ensures var i := FirstMatch(Table, table, query);
              found == if i < |table| then Some(table[i]) else None
    {
      for i := 0 to |table|
        invariant forall k :: 0 <= k < i ==> !Matches(Table, table[k], query)
      {
        if Matches(Table, table[i], query) {
          return Some(table[i]);
        }
      }
      return None;
    }

    /** The update statement that the REST interface runs on every matching row. */
    method UpdateMatching(query: Row, fields: Row) returns (matched: nat)
      modifies this
      ensures table == OverlayAll(old(table), query, fields)
      ensures matched == MatchCount(old(table), query)
    {
      matched := 0;
      for i := 0 to |table|
        invariant |table| == |old(table)|
        invariant forall k :: 0 <= k < i ==> table[k] == OverlayAll(old(table), query, fields)[k]
        invariant forall k :: i <= k < |table| ==> table[k] == old(table)[k]
        invariant matched == MatchCount(old(table)[..i], query)
      {
        assert old(table)[..i + 1][..i] == old(table)[..i];
        if Matches(Table, table[i], query) {
          table := table[i := table[i] + fields];
          matched := matched + 1;
        }
      }
      assert old(table)[..|old(table)|] == old(table);
    }

    method UpdateOne(query: Row, u: Update, upsert: bool, id: string) returns (reply: Reply)
      requires ScalarQuery(query)
      modifies this
      ensures (table, reply) == TableUpdate(old(table), query, u, upsert, id)
    {
      var existing := FindOne(query);
      if u.incs != [] && existing.None? && !upsert {
        return Updated(0);
      }
      var flat := Flatten(if existing.Some? then existing.value else map[], u);
      if flat.None? {
        return NotANumber;
      }
      if flat.value == [] && !upsert && u.onInsert == [] {
        return Updated(0);
      }
      var fields := SetAll(map[], flat.value);
      if exists a :: a in flat.value && Dotted(a.key) {
        if existing.Some? {
          fields := RewriteFields(existing.value, flat.value);
        } else if !upsert {
          return Updated(0);
        }
      } else {
        UndottedIsAll(flat.value);
        assert existing.Some? ==> fields == Plan(existing.value, flat.value);
      }
      if flat.value != [] {
        var matched := UpdateMatching(query, fields);
        MatchCountIsZero(old(table), query);
        if matched > 0 {
          return Updated(matched);
        }
        assert table == old(table);
      }
      if upsert {
        var row := SetAll(query + fields, u.onInsert);
        SetAllOverlay(query, flat.value);
        var stored := if "id" in row then row else row["id" := Text(id)];
        table := table + [stored];
        return Inserted(stored["id"]);
      }
      return Updated(0);
    }
  }

  lemma {:induction false} MatchCountIsZero(rows: seq<Row>, query: Row)
    ensures MatchCount(rows, query) == 0 <==> FirstMatch(Table, rows, query) == |rows|
  {
    if rows != [] {
      var n := |rows| - 1;
      assert rows == rows[..n] + [rows[n]];
      MatchCountIsZero(rows[..n], query);
      assert forall k :: 0 <= k < n ==> rows[..n][k] == rows[k];
    }
  }

  lemma {:induction false} SetAllOverlay(row: Row, sets: seq<Assignment>)
    ensures row + SetAll(map[], sets) == SetAll(row, sets)
  {
    if sets != [] {
      SetAllOverlay(row, sets[..|sets| - 1]);
    }
  }
}
