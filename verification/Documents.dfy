/** JSON documents, dotted keys, and nested assignment along a path. */
module Documents {
  import opened Prelude

  datatype Json =
    | Null
    | Bool(flag: bool)
    | Number(number: int)
    | Text(text: string)
    | List(items: seq<Json>)
    | Object(fields: Row)

  type Row = map<string, Json>

  type Path = seq<string>

  datatype Assignment = Assignment(key: string, value: Json)

  // --- Keys --------------------------------------------------------------------------

  predicate Dotted(key: string) {
    '.' in key
  }

  /** The pieces of a key between its dots. */
  function Split(key: string): (path: Path)
    ensures path != []
  {
    if key == "" then [""]
    else
      var rest := Split(key[1..]);
      if key[0] == '.' then [""] + rest else [[key[0]] + rest[0]] + rest[1..]
  }

  function Top(key: string): string {
    Split(key)[0]
  }

  lemma {:induction false} SplitByDots(key: string)
    ensures Dotted(key) <==> |Split(key)| > 1
    ensures !Dotted(key) ==> Split(key) == [key]
  {
    if key != "" {
      SplitByDots(key[1..]);
      assert key == [key[0]] + key[1..];
    }
  }

  /** The pieces in their order, with a dot between any two. */
  function Joined(pieces: Path): string
    requires pieces != []
  {
    if |pieces| == 1 then pieces[0] else pieces[0] + "." + Joined(pieces[1..])
  }

  /** Joining the pieces with dots gives the key back, and no piece has a dot in it. */
  lemma {:induction false} SplitIsExact(key: string)
    ensures Joined(Split(key)) == key && forall p :: p in Split(key) ==> '.' !in p
  {
    if key != "" {
      var rest := Split(key[1..]);
      SplitIsExact(key[1..]);
      assert key == [key[0]] + key[1..];
      if key[0] == '.' {
        assert Split(key)[1..] == rest;
      } else if |rest| > 1 {
        assert Split(key)[1..] == rest[1..];
      }
    }
  }

  /** So there is no other way to read a key: these are the only pieces that join to it. */
  lemma {:induction false} SplitOfJoined(pieces: Path)
    requires pieces != [] && forall p :: p in pieces ==> '.' !in p
    ensures Split(Joined(pieces)) == pieces
    decreases |pieces|, |pieces[0]|
  {
    var key := Joined(pieces);
    if |pieces| == 1 {
      SplitByDots(key);
    } else if pieces[0] == "" {
      SplitOfJoined(pieces[1..]);
      assert key == "." + Joined(pieces[1..]) && key[1..] == Joined(pieces[1..]);
    } else {
      var shorter := [pieces[0][1..]] + pieces[1..];
      forall p | p in shorter ensures '.' !in p {
        assert p in pieces[1..] || p == pieces[0][1..];
        assert pieces[0] in pieces;
      }
      SplitOfJoined(shorter);
      assert shorter[1..] == pieces[1..];
      assert key[1..] == Joined(shorter) && key[0] == pieces[0][0];
      assert pieces[0] in pieces && [pieces[0][0]] + pieces[0][1..] == pieces[0];
      assert pieces == [pieces[0]] + pieces[1..];
    }
  }

  // --- Nested assignment -------------------------------------------------------------

  /** Assigns at the end of a path; whatever is not an object on the way becomes one. */
  function SetPath(row: Row, path: Path, value: Json): Row
    requires path != []
    decreases path
  {
    if |path| == 1 then row[path[0] := value]
    else
      var inner := if path[0] in row && row[path[0]].Object? then row[path[0]].fields else map[];
      row[path[0] := Object(SetPath(inner, path[1..], value))]
  }

  function GetPath(row: Row, path: Path): Option<Json>
    requires path != []
    decreases path
  {
    if path[0] !in row then None
    else if |path| == 1 then Some(row[path[0]])
    else if row[path[0]].Object? then GetPath(row[path[0]].fields, path[1..])
    else None
  }

  predicate Comparable(p: Path, q: Path) {
    p <= q || q <= p
  }

  lemma {:induction false} SetThenGet(row: Row, path: Path, value: Json)
    requires path != []
    ensures GetPath(SetPath(row, path, value), path) == Some(value)
    decreases path
  {
    if |path| > 1 {
      var inner := if path[0] in row && row[path[0]].Object? then row[path[0]].fields else map[];
      SetThenGet(inner, path[1..], value);
    }
  }

  lemma {:induction false} SetElsewhere(row: Row, path: Path, value: Json, other: Path)
    requires path != [] && other != [] && !Comparable(path, other)
    ensures GetPath(SetPath(row, path, value), other) == GetPath(row, other)
    decreases path
  {
    if path[0] == other[0] {
      assert |path| > 1 && |other| > 1;
      assert path == [path[0]] + path[1..] && other == [other[0]] + other[1..];
      var inner := if path[0] in row && row[path[0]].Object? then row[path[0]].fields else map[];
      SetElsewhere(inner, path[1..], value, other[1..]);
    }
  }

  /** Assigns each dotted key in turn: what an update document means. */
  function Assign(row: Row, sets: seq<Assignment>): Row {
    if sets == [] then row
    else
      var last := sets[|sets| - 1];
      SetPath(Assign(row, sets[..|sets| - 1]), Split(last.key), last.value)
  }

  lemma AssignElsewhere(row: Row, sets: seq<Assignment>, path: Path)
    requires sets != [] && path != [] && !Comparable(Split(sets[|sets| - 1].key), path)
    ensures GetPath(Assign(row, sets), path) == GetPath(Assign(row, sets[..|sets| - 1]), path)
  {
    var n := |sets| - 1;
    SetElsewhere(Assign(row, sets[..n]), Split(sets[n].key), sets[n].value, path);
  }

  /** The value is two objects deep, and nothing beside the way to it has changed. */
  ghost predicate Nests(row: Row, after: Row, a: string, b: string, c: string, value: Json) {
    && after.Keys == row.Keys + {a} && (forall f :: f in row && f != a ==> after[f] == row[f])
    && after[a].Object? && b in after[a].fields
    && (a in row && row[a].Object? ==>
          forall f :: f in row[a].fields && f != b ==> f in after[a].fields && after[a].fields[f] == row[a].fields[f])
    && after[a].fields[b].Object? && c in after[a].fields[b].fields && after[a].fields[b].fields[c] == value
    && (a in row && row[a].Object? && b in row[a].fields && row[a].fields[b].Object? ==>
          forall f :: f in row[a].fields[b].fields && f != c ==>
            f in after[a].fields[b].fields && after[a].fields[b].fields[f] == row[a].fields[b].fields[f])
  }

  /** A key of three pieces writes the field that they name, outermost first, whatever was there before. */
  lemma DottedKeyWritesNested(row: Row, a: string, b: string, c: string, value: Json)
    requires '.' !in a && '.' !in b && '.' !in c
    ensures Nests(row, Assign(row, [Assignment(a + "." + b + "." + c, value)]), a, b, c, value)
  {
    var sets := [Assignment(a + "." + b + "." + c, value)];
    ThreePieces(a, b, c);
    NestedWrite(row, a, b, c, value);
    assert sets[..0] == [] && Assign(row, sets[..0]) == row;
  }

  lemma ThreePieces(a: string, b: string, c: string)
    requires '.' !in a && '.' !in b && '.' !in c
    ensures Split(a + "." + b + "." + c) == [a, b, c]
  {
    assert [a, b, c][1..] == [b, c] && [b, c][1..] == [c];
    assert Joined([c]) == c && Joined([b, c]) == b + "." + c;
    assert Joined([a, b, c]) == a + "." + (b + "." + c);
    assert a + "." + (b + "." + c) == a + "." + b + "." + c;
    SplitOfJoined([a, b, c]);
  }

  function FieldsAt(row: Row, f: string): Row {
    if f in row && row[f].Object? then row[f].fields else map[]
  }

  lemma NestedWrite(row: Row, a: string, b: string, c: string, value: Json)
    ensures
      var outer := FieldsAt(row, a);
      SetPath(row, [a, b, c], value) == row[a := Object(outer[b := Object(FieldsAt(outer, b)[c := value])])]
  {
    assert [a, b, c][1..] == [b, c] && [b, c][1..] == [c];
    var outer := FieldsAt(row, a);
    assert SetPath(FieldsAt(outer, b), [c], value) == FieldsAt(outer, b)[c := value];
    assert SetPath(outer, [b, c], value) == outer[b := Object(FieldsAt(outer, b)[c := value])];
  }

  /** A path that is neither above nor below a written one keeps its value. */
  lemma {:induction false} UnwrittenPath(row: Row, sets: seq<Assignment>, path: Path)
    requires path != [] && forall a :: a in sets ==> !Comparable(Split(a.key), path)
    ensures GetPath(Assign(row, sets), path) == GetPath(row, path)
  {
    if sets != [] {
      var n := |sets| - 1;
      UnwrittenPath(row, sets[..n], path);
      assert sets[n] in sets;
      AssignElsewhere(row, sets, path);
    }
  }

  /** A written path reads back what was written, unless a later key overlaps it. */
  lemma {:induction false} WrittenPath(row: Row, sets: seq<Assignment>, i: nat)
    requires i < |sets|
    requires forall j :: i < j < |sets| ==> !Comparable(Split(sets[j].key), Split(sets[i].key))
    ensures GetPath(Assign(row, sets), Split(sets[i].key)) == Some(sets[i].value)
  {
    var n := |sets| - 1;
    if i == n {
      SetThenGet(Assign(row, sets[..n]), Split(sets[n].key), sets[n].value);
    } else {
      WrittenPath(row, sets[..n], i);
      AssignElsewhere(row, sets, Split(sets[i].key));
    }
  }

  // --- Rewriting whole fields --------------------------------------------------------

  /** The keys taken literally, later ones winning. */
  function SetAll(row: Row, sets: seq<Assignment>): Row {
    if sets == [] then row
    else
      var last := sets[|sets| - 1];
      SetAll(row, sets[..|sets| - 1])[last.key := last.value]
  }

  /** The undotted keys only. */
  function Undotted(sets: seq<Assignment>): Row {
    if sets == [] then map[]
    else
      var rest, last := Undotted(sets[..|sets| - 1]), sets[|sets| - 1];
      if Dotted(last.key) then rest else rest[last.key := last.value]
  }

  /** The top-level fields that some dotted key reaches into. */
  function RewrittenFields(sets: seq<Assignment>): set<string> {
    set a | a in sets && Dotted(a.key) :: Top(a.key)
  }

  lemma {:induction false} RewrittenFieldsExist(row: Row, sets: seq<Assignment>, a: Assignment)
    requires a in sets
    ensures Top(a.key) in Assign(row, sets)
  {
    var n := |sets| - 1;
    if a != sets[n] {
      assert a in sets[..n];
      RewrittenFieldsExist(row, sets[..n], a);
    }
  }

  function Whole(row: Row, fields: set<string>): Row {
    map f | f in fields && f in row :: row[f]
  }

  /** What is written back: undotted keys as they are, every other touched field as a whole. */
  function Plan(row: Row, sets: seq<Assignment>): Row {
    Undotted(sets) + Whole(Assign(row, sets), RewrittenFields(sets))
  }

  /** A field that no dotted key reaches into holds the last value assigned to it as a whole. */
  lemma {:induction false} WholeField(row: Row, sets: seq<Assignment>, f: string)
    requires f !in RewrittenFields(sets)
    ensures f in Assign(row, sets) <==> f in row || f in Undotted(sets)
    ensures f in Undotted(sets) ==> Assign(row, sets)[f] == Undotted(sets)[f]
    ensures f in row && f !in Undotted(sets) ==> Assign(row, sets)[f] == row[f]
  {
    if sets != [] {
      var n := |sets| - 1;
      assert sets == sets[..n] + [sets[n]];
      WholeField(row, sets[..n], f);
      SplitByDots(sets[n].key);
      assert Dotted(sets[n].key) ==> Top(sets[n].key) in RewrittenFields(sets);
    }
  }

  /**
   * Writing whole top-level fields back gives the same document as assigning every path in
   * order, whatever mixture of dotted, undotted and overlapping keys is used.
   */
  lemma PlanIsAssignment(row: Row, sets: seq<Assignment>)
    ensures row + Plan(row, sets) == Assign(row, sets)
  {
    var after, plan := Assign(row, sets), Plan(row, sets);
    forall f
      ensures f in after <==> f in row + plan
      ensures f in after ==> (row + plan)[f] == after[f]
    {
      if f in RewrittenFields(sets) {
        var a :| a in sets && Dotted(a.key) && Top(a.key) == f;
        RewrittenFieldsExist(row, sets, a);
      } else {
        WholeField(row, sets, f);
      }
    }
  }

  // --- Two updates whose reads and writes interleave ---------------------------------

  /** Both updates read the same document; the first writes, then the second. */
  function Interleaved(row: Row, one: seq<Assignment>, other: seq<Assignment>): Row {
    row + Plan(row, one) + Plan(row, other)
  }

  predicate Touches(sets: seq<Assignment>, f: string) {
    exists a :: a in sets && Top(a.key) == f
  }

  lemma {:induction false} AssignmentIsLocal(row: Row, row': Row, sets: seq<Assignment>, f: string)
    requires f in row <==> f in row'
    requires f in row ==> row[f] == row'[f]
    ensures f in Assign(row, sets) <==> f in Assign(row', sets)
    ensures f in Assign(row, sets) ==> Assign(row, sets)[f] == Assign(row', sets)[f]
    ensures !Touches(sets, f) ==> (f in Assign(row, sets) <==> f in row) && (f in row ==> Assign(row, sets)[f] == row[f])
  {
    if sets != [] {
      var n := |sets| - 1;
      assert sets == sets[..n] + [sets[n]];
      AssignmentIsLocal(row, row', sets[..n], f);
      assert sets[n] in sets;
    }
  }

  /** The fields that are written back are exactly those that some key touches. */
  lemma PlanTouches(row: Row, sets: seq<Assignment>, f: string)
    ensures f in Plan(row, sets) <==> Touches(sets, f)
  {
    UndottedKeys(sets, f);
    if Touches(sets, f) {
      var a :| a in sets && Top(a.key) == f;
      SplitByDots(a.key);
      RewrittenFieldsExist(row, sets, a);
    }
  }

  lemma {:induction false} UndottedKeys(sets: seq<Assignment>, f: string)
    ensures f in Undotted(sets) <==> exists a :: a in sets && !Dotted(a.key) && a.key == f
    ensures f in Undotted(sets) ==> Touches(sets, f)
  {
    if sets != [] {
      var n := |sets| - 1;
      assert sets == sets[..n] + [sets[n]];
      UndottedKeys(sets[..n], f);
      SplitByDots(sets[n].key);
    }
  }

  /**
   * Field by field, an interleaving shows the second update alone where the second update
   * touches the field, and otherwise the first. So it equals running one after the other
   * on every field that at most one of them touches, and loses the first on the rest.
   */
  lemma InterleavingLosesSharedFields(row: Row, one: seq<Assignment>, other: seq<Assignment>, f: string)
    ensures
      var result := Interleaved(row, one, other);
      var expected := if Touches(other, f) then Assign(row, other) else Assign(row, one);
      (f in result <==> f in expected) && (f in result ==> result[f] == expected[f])
    ensures
      var result, inTurn := Interleaved(row, one, other), Assign(Assign(row, one), other);
      !(Touches(one, f) && Touches(other, f)) ==>
        (f in result <==> f in inTurn) && (f in result ==> result[f] == inTurn[f])
  {
    PlanTouches(row, one, f);
    PlanTouches(row, other, f);
    PlanIsAssignment(row, one);
    PlanIsAssignment(row, other);
    AssignmentIsLocal(row, row, one, f);
    AssignmentIsLocal(row, row, other, f);
    if Touches(other, f) {
      assert f in row + Plan(row, other) && (row + Plan(row, other))[f] == Plan(row, other)[f];
    } else {
      assert f in Interleaved(row, one, other) <==> f in row + Plan(row, one);
    }
    if !Touches(one, f) {
      AssignmentIsLocal(row, Assign(row, one), other, f);
    } else if !Touches(other, f) {
      AssignmentIsLocal(Assign(row, one), Assign(row, one), other, f);
    }
  }
}
