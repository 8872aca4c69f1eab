/**
 * The label controller: custom labels owned by a user, created with a
 * name and a colour, edited by an UPDATE statement assembled from the
 * fields present in the request, and deleted outright. `nextId` stands
 * for the serial behind `labels.label_id`.
 */
module LabelStore {
  import opened Common

  /** A row of `labels`; `sort_order` and the timestamps are not modelled. */
  datatype Label = Label(id: nat, userId: string, name: Option<string>, kind: string, color: Option<string>)

  datatype Labels = Labels(rows: seq<Label>, nextId: nat)

  const CustomKind: string := "custom"

  predicate UniqueIds(rows: seq<Label>)
  {
    forall i, j :: 0 <= i < j < |rows| ==> rows[i].id != rows[j].id
  }

  /** Ids are distinct and below the serial counter. */
  predicate WellFormed(t: Labels)
  {
    (forall i :: 0 <= i < |t.rows| ==> t.rows[i].id < t.nextId) && UniqueIds(t.rows)
  }

  /** `WHERE label_id = $1 AND user_id = $2`. */
  predicate Owned(x: Label, id: nat, userId: string)
  {
    x.id == id && x.userId == userId
  }

  function OwnedLabel(rows: seq<Label>, id: nat, userId: string): (r: Option<Label>)
    ensures r.None? <==> forall i :: 0 <= i < |rows| ==> !Owned(rows[i], id, userId)
    ensures r.Some? ==> r.value in rows && Owned(r.value, id, userId)
  {
    if rows == [] then None
    else if Owned(rows[0], id, userId) then Some(rows[0])
    else
      var r := OwnedLabel(rows[1..], id, userId);
      assert forall i :: 1 <= i < |rows| ==> rows[i] == rows[1..][i - 1];
      r
  }

  // ---------------------------------------------------------------------
  // createLabel, getLabels and getLabelById
  // ---------------------------------------------------------------------

  /** `createLabel`: 400 unless both name and colour are truthy; otherwise a custom label of the caller. */
  ghost predicate LabelCreated(t: Labels, userId: string, name: Option<string>, color: Option<string>, r: Result<()>,
                               t': Labels)
  {
    if !Truthy(name) || !Truthy(color) then r == Err(BadRequest) && t' == t
    else r == Ok(()) && t' == Labels(t.rows + [Label(t.nextId, userId, name, CustomKind, color)], t.nextId + 1)
  }

  /** `getLabels`: the caller's labels; the `sort_order` ordering is not modelled. */
  function LabelsOf(rows: seq<Label>, userId: string): (r: seq<Label>)
    ensures forall x :: x in r <==> x in rows && x.userId == userId
  {
    if rows == [] then []
    else (if rows[0].userId == userId then [rows[0]] else []) + LabelsOf(rows[1..], userId)
  }

  /** `getLabelById`: the caller's label with the id, or 404. */
  function LabelById(t: Labels, userId: string, id: nat): (r: Result<Label>)
    ensures r.Ok? <==> exists i :: 0 <= i < |t.rows| && Owned(t.rows[i], id, userId)
    ensures r.Ok? ==> r.value in t.rows && Owned(r.value, id, userId)
    ensures r.Err? ==> r.failure == NotFound
  {
    match OwnedLabel(t.rows, id, userId)
    case None => Err(NotFound)
    case Some(x) => Ok(x)
  }

  // ---------------------------------------------------------------------
  // updateLabel
  // ---------------------------------------------------------------------

  /** The value a present field binds: its text, or SQL NULL for `null`. */
  function FieldValue(f: Field): Option<string>
  {
    if f.Given? then Some(f.text) else None
  }

  /** The row `updateLabel` intends: each present field replaced, each absent one kept. */
  function Revise(x: Label, name: Field, color: Field): Label
  {
    x.(name := if name.Undefined? then x.name else FieldValue(name),
       color := if color.Undefined? then x.color else FieldValue(color))
  }

  /** One entry of the SET list; the number is a 1-based placeholder. */
  datatype Assignment = SetName(param: nat) | SetColor(param: nat) | TouchUpdatedAt

  /** A bound query parameter. */
  datatype Param = TextParam(text: Option<string>) | IdParam(id: nat) | UserParam(user: string)

  /** `UPDATE labels SET <assignments> WHERE label_id = $<idParam> AND user_id = $<userParam>`. */
  datatype LabelUpdate = LabelUpdate(assignments: seq<Assignment>, idParam: nat, userParam: nat)

  /** The text a placeholder binds; a placeholder out of range or bound to a non-text value binds nothing. */
  function TextAt(values: seq<Param>, k: nat): Option<Option<string>>
  {
    if 1 <= k <= |values| && values[k - 1].TextParam? then Some(values[k - 1].text) else None
  }

  /** Performs the SET list on a row, left to right. */
  function ApplySet(x: Label, assignments: seq<Assignment>, values: seq<Param>): Label
    decreases |assignments|
  {
    if assignments == [] then x
    else
      var y := match assignments[0]
        case SetName(k) => if TextAt(values, k).Some? then x.(name := TextAt(values, k).value) else x
        case SetColor(k) => if TextAt(values, k).Some? then x.(color := TextAt(values, k).value) else x
        case TouchUpdatedAt => x;
      ApplySet(y, assignments[1..], values)
  }

  /** The WHERE clause of the statement, evaluated on a row with the bound values. */
  predicate Selects(q: LabelUpdate, values: seq<Param>, x: Label)
  {
    1 <= q.idParam <= |values| && 1 <= q.userParam <= |values|
    && values[q.idParam - 1] == IdParam(x.id) && values[q.userParam - 1] == UserParam(x.userId)
  }

  /** The placeholder of every SET entry that has one. */
  function Placeholders(assignments: seq<Assignment>): seq<nat>
  {
    if assignments == [] then []
    else (if assignments[0].TouchUpdatedAt? then [] else [assignments[0].param]) + Placeholders(assignments[1..])
  }

  /** Executes the statement on the table. */
  function RunUpdate(rows: seq<Label>, q: LabelUpdate, values: seq<Param>): (r: seq<Label>)
    ensures |r| == |rows|
    ensures forall i :: 0 <= i < |rows| ==> r[i] == if Selects(q, values, rows[i]) then ApplySet(rows[i], q.assignments, values) else rows[i]
  {
    if rows == [] then []
    else [if Selects(q, values, rows[0]) then ApplySet(rows[0], q.assignments, values) else rows[0]] + RunUpdate(rows[1..], q, values)
  }

  /**
   * The statement `updateLabel` assembles: a SET entry for each field
   * present, in the order name then colour, numbered from 1, then
   * `updated_at`; `label_id` and `user_id` take the last two placeholders.
   */
  method BuildLabelUpdate(name: Field, color: Field, labelId: nat, userId: string)
    returns (q: LabelUpdate, values: seq<Param>)
    ensures Placeholders(q.assignments) + [q.idParam, q.userParam] == Numbered(|values|)
    ensures |values| >= 2 && q.idParam == |values| - 1 && q.userParam == |values|
    ensures values[q.idParam - 1] == IdParam(labelId) && values[q.userParam - 1] == UserParam(userId)
    ensures forall x :: Selects(q, values, x) <==> Owned(x, labelId, userId)
    ensures forall x :: ApplySet(x, q.assignments, values) == Revise(x, name, color)
    ensures TouchUpdatedAt in q.assignments
  {
    var fields: seq<Assignment> := [];
    values := [];
    var index: nat := 1;
    if !name.Undefined? {
      fields := fields + [SetName(index)];
      index := index + 1;
      values := values + [TextParam(FieldValue(name))];
    }
    if !color.Undefined? {
      fields := fields + [SetColor(index)];
      index := index + 1;
      values := values + [TextParam(FieldValue(color))];
    }
    fields := fields + [TouchUpdatedAt];
    var idParam := index;
    index := index + 1;
    q := LabelUpdate(fields, idParam, index);
    values := values + [IdParam(labelId), UserParam(userId)];
    assert q == LabelUpdate(BuiltAssignments(name, color), |values| - 1, |values|);
    assert values == BuiltValues(name, color, labelId, userId);
    BuiltBindsFields(name, color, labelId, userId);
    BuiltNumbersPlaceholders(name, color, labelId, userId);
    BuiltSelectsOwner(name, color, labelId, userId);
  }

  /** The SET list assembled for the present fields. */
  function BuiltAssignments(name: Field, color: Field): seq<Assignment>
  {
    var offset := if name.Undefined? then 0 else 1;
    (if name.Undefined? then [] else [SetName(1)]) + (if color.Undefined? then [] else [SetColor(offset + 1)])
    + [TouchUpdatedAt]
  }

  /** The values bound for the present fields, then the label id and the user id. */
  function BuiltValues(name: Field, color: Field, labelId: nat, userId: string): seq<Param>
  {
    (if name.Undefined? then [] else [TextParam(FieldValue(name))])
    + (if color.Undefined? then [] else [TextParam(FieldValue(color))])
    + [IdParam(labelId), UserParam(userId)]
  }

  lemma BuiltSelectsOwner(name: Field, color: Field, labelId: nat, userId: string)
    ensures var values := BuiltValues(name, color, labelId, userId);
            var q := LabelUpdate(BuiltAssignments(name, color), |values| - 1, |values|);
            |values| >= 2 && values[q.idParam - 1] == IdParam(labelId) && values[q.userParam - 1] == UserParam(userId)
            && forall x :: Selects(q, values, x) <==> Owned(x, labelId, userId)
  {
    var values := BuiltValues(name, color, labelId, userId);
    var k := |values| - 2;
    assert values[k] == IdParam(labelId) && values[k + 1] == UserParam(userId);
  }

  lemma BuiltBindsFields(name: Field, color: Field, labelId: nat, userId: string)
    ensures forall x :: ApplySet(x, BuiltAssignments(name, color), BuiltValues(name, color, labelId, userId))
                        == Revise(x, name, color)
  {
    var values := BuiltValues(name, color, labelId, userId);
    forall x ensures ApplySet(x, BuiltAssignments(name, color), values) == Revise(x, name, color) {
      ApplyBuilt(x, name, color, values, if name.Undefined? then 0 else 1);
    }
  }

  lemma BuiltNumbersPlaceholders(name: Field, color: Field, labelId: nat, userId: string)
    ensures var values := BuiltValues(name, color, labelId, userId);
            Placeholders(BuiltAssignments(name, color)) + [|values| - 1, |values|] == Numbered(|values|)
  {
    PlaceholdersCons(TouchUpdatedAt, []);
    var touched: seq<Assignment> := [TouchUpdatedAt];
    assert Placeholders(touched) == [];
    if !name.Undefined? && !color.Undefined? {
      PlaceholdersCons(SetColor(2), touched);
      PlaceholdersCons(SetName(1), [SetColor(2)] + touched);
      NumbersBoth(name, color, labelId, userId);
    } else if !name.Undefined? {
      PlaceholdersCons(SetName(1), touched);
      NumbersOne(name, color, labelId, userId, SetName(1));
    } else if !color.Undefined? {
      PlaceholdersCons(SetColor(1), touched);
      NumbersOne(name, color, labelId, userId, SetColor(1));
    } else {
      NumbersNone(name, color, labelId, userId);
    }
  }

  lemma NumbersBoth(name: Field, color: Field, labelId: nat, userId: string)
    requires !name.Undefined? && !color.Undefined?
    requires Placeholders([SetName(1)] + ([SetColor(2)] + [TouchUpdatedAt])) == [1, 2]
    ensures var values := BuiltValues(name, color, labelId, userId);
            Placeholders(BuiltAssignments(name, color)) + [|values| - 1, |values|] == Numbered(|values|)
  {
    assert BuiltAssignments(name, color) == [SetName(1)] + ([SetColor(2)] + [TouchUpdatedAt]);
    assert |BuiltValues(name, color, labelId, userId)| == 4;
    assert Numbered(4) == [1, 2, 3, 4];
  }

  lemma NumbersOne(name: Field, color: Field, labelId: nat, userId: string, a: Assignment)
    requires name.Undefined? != color.Undefined?
    requires a == if name.Undefined? then SetColor(1) else SetName(1)
    requires Placeholders([a] + [TouchUpdatedAt]) == [1]
    ensures var values := BuiltValues(name, color, labelId, userId);
            Placeholders(BuiltAssignments(name, color)) + [|values| - 1, |values|] == Numbered(|values|)
  {
    assert BuiltAssignments(name, color) == [a] + [TouchUpdatedAt];
    assert |BuiltValues(name, color, labelId, userId)| == 3;
    assert Numbered(3) == [1, 2, 3];
  }

  lemma NumbersNone(name: Field, color: Field, labelId: nat, userId: string)
    requires name.Undefined? && color.Undefined?
    requires Placeholders([TouchUpdatedAt]) == []
    ensures var values := BuiltValues(name, color, labelId, userId);
            Placeholders(BuiltAssignments(name, color)) + [|values| - 1, |values|] == Numbered(|values|)
  {
    assert BuiltAssignments(name, color) == [TouchUpdatedAt];
    assert |BuiltValues(name, color, labelId, userId)| == 2;
    assert Numbered(2) == [1, 2];
  }

  lemma PlaceholdersCons(a: Assignment, rest: seq<Assignment>)
    ensures Placeholders([a] + rest) == (if a.TouchUpdatedAt? then [] else [a.param]) + Placeholders(rest)
  {
    assert ([a] + rest)[0] == a && ([a] + rest)[1..] == rest;
  }

  /** The SET list assembled for the present fields sets exactly those fields. */
  lemma ApplyBuilt(x: Label, name: Field, color: Field, values: seq<Param>, offset: nat)
    requires offset == if name.Undefined? then 0 else 1
    requires |values| >= offset + (if color.Undefined? then 0 else 1)
    requires !name.Undefined? ==> values[0] == TextParam(FieldValue(name))
    requires !color.Undefined? ==> values[offset] == TextParam(FieldValue(color))
    ensures ApplySet(x, BuiltAssignments(name, color), values) == Revise(x, name, color)
  {
    var y := if name.Undefined? then x else x.(name := FieldValue(name));
    var z := if color.Undefined? then y else y.(color := FieldValue(color));
    var tail := (if color.Undefined? then [] else [SetColor(offset + 1)]) + [TouchUpdatedAt];
    assert ApplySet(z, [TouchUpdatedAt], values) == z;
    assert ApplySet(y, tail, values) == z;
    if !name.Undefined? {
      assert ([SetName(1)] + tail)[1..] == tail;
    }
  }

  /** A statement that selects the caller's label and sets the present fields performs the intended update. */
  lemma RunBuilt(rows: seq<Label>, q: LabelUpdate, values: seq<Param>, id: nat, userId: string, name: Field, color: Field)
    requires forall x :: Selects(q, values, x) <==> Owned(x, id, userId)
    requires forall x :: ApplySet(x, q.assignments, values) == Revise(x, name, color)
    ensures RunUpdate(rows, q, values) == ReviseOwned(rows, id, userId, name, color)
  {
  }

  /** The placeholders 1 through n, in order. */
  function Numbered(n: nat): (r: seq<nat>)
    ensures |r| == n && forall i :: 0 <= i < n ==> r[i] == i + 1
  {
    if n == 0 then [] else Numbered(n - 1) + [n]
  }

  /** The intended effect: every label of the caller with the id takes the present fields. */
  function ReviseOwned(rows: seq<Label>, id: nat, userId: string, name: Field, color: Field): (r: seq<Label>)
    ensures |r| == |rows|
    ensures forall i :: 0 <= i < |rows| ==> r[i] == if Owned(rows[i], id, userId) then Revise(rows[i], name, color) else rows[i]
  {
    if rows == [] then []
    else [if Owned(rows[0], id, userId) then Revise(rows[0], name, color) else rows[0]]
         + ReviseOwned(rows[1..], id, userId, name, color)
  }

  /**
   * `updateLabel`: 400 when both fields are absent (a `null` counts as
   * present), 404 when the caller has no label with the id; otherwise the
   * revised row.
   */
  ghost predicate LabelUpdated(t: Labels, userId: string, id: nat, name: Field, color: Field, r: Result<Label>, t': Labels)
  {
    if name.Undefined? && color.Undefined? then r == Err(BadRequest) && t' == t
    else
      match OwnedLabel(t.rows, id, userId)
      case None => r == Err(NotFound) && t' == t
      case Some(current) => r == Ok(Revise(current, name, color)) && t' == t.(rows := ReviseOwned(t.rows, id, userId, name, color))
  }

  // ---------------------------------------------------------------------
  // deleteLabel
  // ---------------------------------------------------------------------

  /** `DELETE FROM labels WHERE label_id = $1 AND user_id = $2`. */
  function Without(rows: seq<Label>, id: nat, userId: string): (r: seq<Label>)
    ensures forall x :: x in r <==> x in rows && !Owned(x, id, userId)
    ensures |r| <= |rows|
  {
    if rows == [] then []
    else (if Owned(rows[0], id, userId) then [] else [rows[0]]) + Without(rows[1..], id, userId)
  }

  /** `deleteLabel`: 404 when the caller has no label with the id; otherwise it is removed. */
  ghost predicate LabelDeleted(t: Labels, userId: string, id: nat, r: Result<()>, t': Labels)
  {
    if OwnedLabel(t.rows, id, userId).None? then r == Err(NotFound) && t' == t
    else r == Ok(()) && t' == t.(rows := Without(t.rows, id, userId))
  }

  // ---------------------------------------------------------------------
  // The table as a class
  // ---------------------------------------------------------------------

  class LabelDb {
    var rows: seq<Label>
    var nextId: nat

    function State(): Labels
      reads this
    {
      Labels(rows, nextId)
    }

    predicate Valid()
      reads this
    {
      WellFormed(State())
    }

    constructor (t: Labels)
      requires WellFormed(t)
      ensures Valid() && State() == t
    {
      rows, nextId := t.rows, t.nextId;
    }

    method CreateLabel(userId: string, name: Option<string>, color: Option<string>) returns (r: Result<()>)
      requires Valid()
      modifies this
      ensures Valid()
      ensures LabelCreated(old(State()), userId, name, color, r, State())
    {
      if !Truthy(name) || !Truthy(color) {
        return Err(BadRequest);
      }
      var xs := rows + [Label(nextId, userId, name, CustomKind, color)];
      assert forall i :: 0 <= i < |rows| ==> xs[i] == rows[i];
      rows, nextId := xs, nextId + 1;
      r := Ok(());
    }

    /** Builds the statement, runs it, and answers with the first row it changed. */
    method UpdateLabel(userId: string, id: nat, name: Field, color: Field) returns (r: Result<Label>)
      requires Valid()
      modifies this
      ensures Valid()
      ensures LabelUpdated(old(State()), userId, id, name, color, r, State())
    {
      if name.Undefined? && color.Undefined? {
        return Err(BadRequest);
      }
      var q, values := BuildLabelUpdate(name, color, id, userId);
      var current := OwnedLabel(rows, id, userId);
      var xs := RunUpdate(rows, q, values);
      RunBuilt(rows, q, values, id, userId, name, color);
      ReviseKeepsWellFormed(State(), id, userId, name, color);
      rows := xs;
      if current.None? {
        return Err(NotFound);
      }
      r := Ok(Revise(current.value, name, color));
    }

    method DeleteLabel(userId: string, id: nat) returns (r: Result<()>)
      requires Valid()
      modifies this
      ensures Valid()
      ensures LabelDeleted(old(State()), userId, id, r, State())
    {
      if OwnedLabel(rows, id, userId).None? {
        return Err(NotFound);
      }
      WithoutKeepsWellFormed(State(), id, userId);
      rows := Without(rows, id, userId);
      r := Ok(());
    }
  }

  /** Revising fields leaves every id where it was. */
  lemma ReviseKeepsWellFormed(t: Labels, id: nat, userId: string, name: Field, color: Field)
    requires WellFormed(t)
    ensures WellFormed(t.(rows := ReviseOwned(t.rows, id, userId, name, color)))
  {
    var xs := ReviseOwned(t.rows, id, userId, name, color);
    assert forall i :: 0 <= i < |xs| ==> xs[i].id == t.rows[i].id;
  }

  lemma ConsKeepsUnique(h: Label, rest: seq<Label>)
    requires UniqueIds(rest)
    requires forall x :: x in rest ==> x.id != h.id
    ensures UniqueIds([h] + rest)
  {
    var xs := [h] + rest;
    forall j | 0 < j < |xs| ensures xs[j] == rest[j - 1] && xs[j] in rest {
    }
  }

  lemma {:induction false} WithoutKeepsUnique(rows: seq<Label>, id: nat, userId: string)
    requires UniqueIds(rows)
    ensures UniqueIds(Without(rows, id, userId))
    decreases |rows|
  {
    if rows != [] {
      var tail := rows[1..];
      assert forall i :: 0 <= i < |tail| ==> tail[i] == rows[i + 1];
      WithoutKeepsUnique(tail, id, userId);
      var rest := Without(tail, id, userId);
      if !Owned(rows[0], id, userId) {
        forall x | x in rest ensures x.id != rows[0].id {
          var k :| 0 <= k < |tail| && tail[k] == x;
          assert rows[k + 1] == x;
        }
        ConsKeepsUnique(rows[0], rest);
      }
    }
  }

  /** Deleting rows keeps the ids distinct and below the counter. */
  lemma WithoutKeepsWellFormed(t: Labels, id: nat, userId: string)
    requires WellFormed(t)
    ensures WellFormed(t.(rows := Without(t.rows, id, userId)))
  {
    WithoutKeepsUnique(t.rows, id, userId);
    var xs := Without(t.rows, id, userId);
    forall i | 0 <= i < |xs| ensures xs[i].id < t.nextId {
      assert xs[i] in t.rows;
    }
  }
}
