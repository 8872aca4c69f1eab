/**
 * Properties of the label controller model: a created label reads back
 * as a custom label, an update is what a read returns and repeating it
 * changes nothing more, update and delete answer 404 exactly when a read
 * would, and a deleted label is gone for its owner and untouched for
 * everyone else.
 */
module LabelLaws {
  import opened Common
  import opened LabelStore

  /** A new label is a custom label of the caller, listed and read back by its id. */
  lemma CreateThenRead(t: Labels, userId: string, name: Option<string>, color: Option<string>, t': Labels)
    requires WellFormed(t)
    requires LabelCreated(t, userId, name, color, Ok(()), t')
    ensures LabelById(t', userId, t.nextId) == Ok(Label(t.nextId, userId, name, CustomKind, color))
    ensures Label(t.nextId, userId, name, CustomKind, color) in LabelsOf(t'.rows, userId)
    ensures Truthy(name) && Truthy(color)
  {
    var n := |t.rows|;
    assert t'.rows[n].id == t.nextId;
    assert forall i :: 0 <= i < n ==> t'.rows[i].id < t.nextId;
  }

  /** With some field present, update answers 404 exactly when reading the label would. */
  lemma UpdateFindsWhatReadFinds(t: Labels, userId: string, id: nat, name: Field, color: Field, r: Result<Label>, t': Labels)
    requires !(name.Undefined? && color.Undefined?)
    requires LabelUpdated(t, userId, id, name, color, r, t')
    ensures r == Err(NotFound) <==> LabelById(t, userId, id) == Err(NotFound)
    ensures r.Ok? ==> r == Ok(Revise(LabelById(t, userId, id).value, name, color))
  {
  }

  /** After an update, reading the label returns the revised row. */
  lemma UpdateThenRead(t: Labels, userId: string, id: nat, name: Field, color: Field, v: Label, t': Labels)
    requires UniqueIds(t.rows)
    requires LabelUpdated(t, userId, id, name, color, Ok(v), t')
    ensures LabelById(t', userId, id) == Ok(v)
    ensures v.name == (if name.Undefined? then LabelById(t, userId, id).value.name else FieldValue(name))
    ensures v.color == (if color.Undefined? then LabelById(t, userId, id).value.color else FieldValue(color))
  {
    var current := OwnedLabel(t.rows, id, userId).value;
    assert v == Revise(current, name, color);
    assert t' == t.(rows := ReviseOwned(t.rows, id, userId, name, color));
    var k :| 0 <= k < |t.rows| && t.rows[k] == current;
    assert t'.rows[k] == v;
    ReviseKeepsIds(t.rows, id, userId, name, color);
    OwnedFoundAt(t'.rows, k, id, userId);
  }

  lemma ReviseKeepsIds(rows: seq<Label>, id: nat, userId: string, name: Field, color: Field)
    requires UniqueIds(rows)
    ensures UniqueIds(ReviseOwned(rows, id, userId, name, color))
  {
    var xs := ReviseOwned(rows, id, userId, name, color);
    assert forall i :: 0 <= i < |xs| ==> xs[i].id == rows[i].id;
  }

  /** With distinct ids, the caller's row at `k` is the one the lookup finds. */
  lemma OwnedFoundAt(rows: seq<Label>, k: nat, id: nat, userId: string)
    requires UniqueIds(rows) && k < |rows| && Owned(rows[k], id, userId)
    ensures OwnedLabel(rows, id, userId) == Some(rows[k])
  {
    var found := OwnedLabel(rows, id, userId).value;
    var j :| 0 <= j < |rows| && rows[j] == found;
  }

  /** Revising keeps which rows are the caller's label, and the first of them is the revised first one. */
  lemma {:induction false} OwnedAfterRevise(rows: seq<Label>, id: nat, userId: string, name: Field, color: Field)
    ensures var found := OwnedLabel(rows, id, userId);
            OwnedLabel(ReviseOwned(rows, id, userId, name, color), id, userId)
            == if found.None? then None else Some(Revise(found.value, name, color))
    decreases |rows|
  {
    if rows != [] {
      var xs := ReviseOwned(rows, id, userId, name, color);
      assert xs[1..] == ReviseOwned(rows[1..], id, userId, name, color);
      OwnedAfterRevise(rows[1..], id, userId, name, color);
    }
  }

  /** Sending the same update twice leaves the table as sending it once, with the same answer. */
  lemma UpdateIdempotent(t: Labels, userId: string, id: nat, name: Field, color: Field,
                         r: Result<Label>, t': Labels, r': Result<Label>, t'': Labels)
    requires LabelUpdated(t, userId, id, name, color, r, t')
    requires LabelUpdated(t', userId, id, name, color, r', t'')
    ensures r' == r && t'' == t'
  {
    if r.Ok? {
      OwnedAfterRevise(t.rows, id, userId, name, color);
      ReviseOwnedTwice(t.rows, id, userId, name, color);
    }
  }

  lemma ReviseOwnedTwice(rows: seq<Label>, id: nat, userId: string, name: Field, color: Field)
    ensures var xs := ReviseOwned(rows, id, userId, name, color);
            ReviseOwned(xs, id, userId, name, color) == xs
  {
  }

  /**
   * After a delete the label can no longer be read and a second delete
   * answers 404; every other label, the caller's and other users', stays.
   */
  lemma DeleteThenRead(t: Labels, userId: string, id: nat, t': Labels, r: Result<()>, t'': Labels)
    requires LabelDeleted(t, userId, id, Ok(()), t')
    requires LabelDeleted(t', userId, id, r, t'')
    ensures LabelById(t', userId, id) == Err(NotFound)
    ensures r == Err(NotFound) && t'' == t'
    ensures forall x :: x in t.rows && !Owned(x, id, userId) ==> x in t'.rows
    ensures forall u :: u != userId ==> forall x :: x in LabelsOf(t'.rows, u) <==> x in LabelsOf(t.rows, u)
  {
    forall i | 0 <= i < |t'.rows| ensures !Owned(t'.rows[i], id, userId) {
      assert t'.rows[i] in t'.rows;
    }
  }

  /** A label the caller does not own can be neither updated nor deleted, and the table stays as it was. */
  lemma OthersLabelsUntouchable(t: Labels, userId: string, id: nat, name: Field, color: Field,
                                r: Result<Label>, t': Labels, r': Result<()>, t'': Labels)
    requires forall i :: 0 <= i < |t.rows| && t.rows[i].id == id ==> t.rows[i].userId != userId
    requires LabelUpdated(t, userId, id, name, color, r, t')
    requires LabelDeleted(t, userId, id, r', t'')
    ensures r.Err? && t' == t
    ensures r' == Err(NotFound) && t'' == t
  {
  }
}
