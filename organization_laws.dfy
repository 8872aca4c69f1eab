/**
 * Properties of the organisation controller model: reads skip deleted
 * organisations, an update is what a read returns and an empty update
 * changes nothing, a soft delete hides the row from every handler and
 * cannot be repeated, the joined ids split back into the array, and the
 * regenerated keys are exactly the fifty-character alphanumeric strings.
 */
module OrganisationLaws {
  import opened Common
  import opened OrganisationStore

  /** A new organisation is listed for everyone and read back by its owner. */
  lemma CreateThenRead(t: Orgs, userId: Option<string>, name: Option<string>, ids: Option<string>,
                       logo: Option<string>, key: Option<string>, id: nat, t': Orgs)
    requires WellFormed(t)
    requires OrganisationCreated(t, userId, name, ids, logo, key, Ok(id), t')
    ensures var o := OrganisationById(t', userId, id);
            o.Ok? && o.value.name == name && o.value.ids == ids && o.value.key == key
            && (o.value.logo.Some? <==> Truthy(logo))
    ensures OrganisationById(t', userId, id).value in AllOrganisations(t')
  {
    var n := |t.rows|;
    assert t'.rows[n].id == id;
    assert forall i :: 0 <= i < n ==> t'.rows[i].id < id;
  }

  /** After an update, the owner reads back the merged row. */
  lemma UpdateThenRead(t: Orgs, userId: Option<string>, id: nat, name: Field, ids: Field, logo: Field, key: Field,
                       v: Org, t': Orgs)
    requires UniqueIds(t.rows)
    requires OrganisationUpdated(t, userId, id, name, ids, logo, key, Ok(v), t')
    ensures OrganisationById(t', userId, id) == Ok(v)
  {
    var u := userId.value;
    var current := OwnedOrg(t.rows, id, u).value;
    assert t' == t.(rows := SetOwned(t.rows, id, u, v));
    var k :| 0 <= k < |t.rows| && t.rows[k] == current;
    assert userId == Some(u);
    assert v.id == current.id && v.userId == current.userId && v.deleted == current.deleted;
    AssignWhole(current, v);
    assert t'.rows[k] == v;
    SetOwnedKeepsIds(t.rows, id, u, v);
    ReadFindsRow(t', u, id, k);
  }

  lemma SetOwnedKeepsIds(rows: seq<Org>, id: nat, u: string, v: Org)
    requires UniqueIds(rows)
    ensures UniqueIds(SetOwned(rows, id, u, v))
  {
    var xs := SetOwned(rows, id, u, v);
    assert forall i :: 0 <= i < |xs| ==> xs[i].id == rows[i].id;
  }

  /** Writing every column `updateOrganisation` sets reproduces the merged row. */
  lemma AssignWhole(o: Org, v: Org)
    requires v.id == o.id && v.userId == o.userId && v.deleted == o.deleted
    ensures Assign(o, v) == v
  {
  }

  /** With distinct ids, the owner reads the live row at `k`. */
  lemma ReadFindsRow(t: Orgs, u: string, id: nat, k: nat)
    requires UniqueIds(t.rows) && u != [] && k < |t.rows| && Owned(t.rows[k], id, u)
    ensures OrganisationById(t, Some(u), id) == Ok(t.rows[k])
  {
    OwnedFoundAt(t.rows, k, id, u);
  }

  /** With distinct ids, the caller's live row at `k` is the one the lookup finds. */
  lemma OwnedFoundAt(rows: seq<Org>, k: nat, id: nat, u: string)
    requires UniqueIds(rows) && k < |rows| && Owned(rows[k], id, u)
    ensures OwnedOrg(rows, id, u) == Some(rows[k])
  {
    var found := OwnedOrg(rows, id, u).value;
    var j :| 0 <= j < |rows| && rows[j] == found;
  }

  /** An update whose every field is absent answers the current row and leaves the table as it was. */
  lemma EmptyUpdateChangesNothing(t: Orgs, userId: Option<string>, id: nat, r: Result<Org>, t': Orgs)
    requires UniqueIds(t.rows)
    requires OrganisationUpdated(t, userId, id, Undefined, Undefined, Undefined, Undefined, r, t')
    ensures t' == t
    ensures r.Ok? ==> OrganisationById(t, userId, id) == r
  {
    if r.Ok? {
      var current := OwnedOrg(t.rows, id, userId.value).value;
      var k :| 0 <= k < |t.rows| && t.rows[k] == current;
      assert forall j :: 0 <= j < |t.rows| && t.rows[j].id == id ==> j == k;
      assert t'.rows == t.rows;
    }
  }

  /** `null` clears a name, ids or key, but a `null` logo fails the whole update with 500. */
  lemma NullClearsButNullLogoFails(t: Orgs, userId: Option<string>, id: nat, logo: Field, r: Result<Org>, t': Orgs)
    requires OrganisationUpdated(t, userId, id, Null, Null, logo, Null, r, t')
    requires OrganisationById(t, userId, id).Ok?
    ensures logo.Null? <==> r == Err(ServerError)
    ensures r.Ok? ==> r.value.name.None? && r.value.ids.None? && r.value.key.None?
    ensures r.Err? ==> t' == t
  {
  }

  /** The whole-row update stores a given logo base64-decoded, the logo patch stores the same text as sent. */
  lemma LogoEncodingsDiverge(t: Orgs, userId: Option<string>, id: nat, logo: string,
                             r: Result<Org>, t': Orgs, r': Result<Org>, t'': Orgs)
    requires logo != []
    requires OrganisationUpdated(t, userId, id, Undefined, Undefined, Given(logo), Undefined, r, t')
    requires LogoUpdated(t, id, Some(logo), r', t'')
    requires r.Ok? && r'.Ok?
    ensures r.value.logo == Some(FromBase64(logo)) && r'.value.logo == Some(AsText(logo))
  {
  }

  /**
   * The single-column patches ignore the owner: a name change succeeds
   * exactly when some live organisation has the id, and its owner reads
   * the new name back.
   */
  lemma RenameIgnoresOwner(t: Orgs, id: nat, name: string, r: Result<Org>, t': Orgs)
    requires UniqueIds(t.rows)
    requires name != []
    requires NameUpdated(t, id, Some(name), r, t')
    ensures r.Ok? <==> exists i :: 0 <= i < |t.rows| && Live(t.rows[i], id)
    ensures r.Ok? ==> var owner := r.value.userId;
                      owner != [] ==> OrganisationById(t', Some(owner), id) == r && r.value.name == Some(name)
  {
    if r.Ok? {
      var current := LiveOrg(t.rows, id).value;
      assert t' == t.(rows := PatchLive(t.rows, id, NewName(name)));
      var k :| 0 <= k < |t.rows| && t.rows[k] == current;
      PatchTouchesOneRow(t.rows, id, NewName(name), k);
      assert t'.rows[k] == r.value;
      PatchKeepsIds(t.rows, id, NewName(name));
      if r.value.userId != [] {
        ReadFindsRow(t', r.value.userId, id, k);
      }
    }
  }

  /**
   * After a soft delete the organisation is neither listed nor readable,
   * a second delete answers 404, and nothing else changes.
   */
  lemma DeleteHidesAndIsFinal(t: Orgs, userId: Option<string>, id: nat, t': Orgs, r: Result<()>, t'': Orgs)
    requires OrganisationDeleted(t, userId, id, Ok(()), t')
    requires OrganisationDeleted(t', userId, id, r, t'')
    ensures OrganisationById(t', userId, id) == Err(NotFound)
    ensures forall x :: x in AllOrganisations(t') ==> x.id != id || x.userId != userId.value
    ensures r == Err(NotFound) && t'' == t'
    ensures |t'.rows| == |t.rows|
            && forall i :: 0 <= i < |t.rows| ==> t'.rows[i] == t.rows[i] || (Owned(t.rows[i], id, userId.value) && t'.rows[i] == t.rows[i].(deleted := true))
  {
    var u := userId.value;
    assert t' == t.(rows := SoftDelete(t.rows, id, u));
    SoftDeleteHides(t, id, u);
  }

  lemma SoftDeleteHides(t: Orgs, id: nat, u: string)
    ensures var t' := t.(rows := SoftDelete(t.rows, id, u));
            OwnedOrg(t'.rows, id, u).None? && forall x :: x in AllOrganisations(t') ==> x.id != id || x.userId != u
  {
    var t' := t.(rows := SoftDelete(t.rows, id, u));
    forall i | 0 <= i < |t'.rows| ensures !Owned(t'.rows[i], id, u) {
    }
    forall x | x in AllOrganisations(t') ensures x.id != id || x.userId != u {
      var i :| 0 <= i < |t'.rows| && t'.rows[i] == x;
    }
  }

  /** Once deleted, an organisation can no longer be patched: every patch answers 404. */
  lemma DeletedCannotBePatched(t: Orgs, userId: Option<string>, id: nat, t': Orgs, p: Patch, r: Result<Org>, t'': Orgs)
    requires UniqueIds(t.rows)
    requires OrganisationDeleted(t, userId, id, Ok(()), t')
    requires Patched(t', id, p, r, t'')
    ensures r == Err(NotFound) && t'' == t'
  {
    var current := OwnedOrg(t.rows, id, userId.value).value;
    var k :| 0 <= k < |t.rows| && t.rows[k] == current;
    assert forall j :: 0 <= j < |t.rows| && t.rows[j].id == id ==> j == k;
    assert forall i :: 0 <= i < |t'.rows| ==> !Live(t'.rows[i], id);
  }

  // ---------------------------------------------------------------------
  // The ids join
  // ---------------------------------------------------------------------

  /**
   * An accepted ids patch stores a string unchanged and an array joined
   * so that splitting recovers it; an empty array passes the check and
   * stores the empty string.
   */
  lemma IdsStoredJoined(t: Orgs, id: nat, ids: IdsInput, o: Org, t': Orgs)
    requires IdsUpdated(t, id, Some(ids), Ok(o), t')
    ensures ids.IdText? ==> o.ids == Some(ids.text)
    ensures ids.IdList? && |ids.items| >= 1 && (forall i :: 0 <= i < |ids.items| ==> ',' !in ids.items[i])
            ==> Split(o.ids.value) == ids.items
    ensures ids == IdList([]) ==> o.ids == Some([])
  {
    if ids.IdList? && |ids.items| >= 1 && (forall i :: 0 <= i < |ids.items| ==> ',' !in ids.items[i]) {
      SplitJoin(ids.items);
    }
  }

  // ---------------------------------------------------------------------
  // The regenerated key
  // ---------------------------------------------------------------------

  /** The draws that spell `key`, one charset index per character. */
  ghost function PicksFor(key: string): (r: seq<nat>)
    requires forall i :: 0 <= i < |key| ==> key[i] in Charset
    ensures |r| == |key| && forall i :: 0 <= i < |r| ==> r[i] < |Charset| && Charset[r[i]] == key[i]
  {
    if key == [] then []
    else
      var k :| 0 <= k < |Charset| && Charset[k] == key[0];
      [k] + PicksFor(key[1..])
  }

  /** Every fifty-character alphanumeric string, and nothing else, is a key some draws produce. */
  lemma KeysAreExactlyAlphanumeric(key: string)
    ensures (exists picks: seq<nat> :: |picks| == KeyLength && (forall i :: 0 <= i < |picks| ==> picks[i] < |Charset|)
                                       && KeyFrom(picks) == key)
            <==> |key| == KeyLength && forall i :: 0 <= i < |key| ==> key[i] in Charset
  {
    if |key| == KeyLength && forall i :: 0 <= i < |key| ==> key[i] in Charset {
      var picks := PicksFor(key);
      assert KeyFrom(picks) == key;
    }
  }

  /** With unique ids, a patch changes the one live row with the id and no other. */
  lemma PatchTouchesOneRow(rows: seq<Org>, id: nat, p: Patch, k: nat)
    requires UniqueIds(rows) && k < |rows| && Live(rows[k], id)
    ensures PatchLive(rows, id, p)[k] == ApplyPatch(rows[k], p)
    ensures forall j :: 0 <= j < |rows| && j != k ==> PatchLive(rows, id, p)[j] == rows[j]
  {
    assert forall j :: 0 <= j < |rows| && rows[j].id == id ==> j == k;
  }

  /** After a key change, the owner reads the new key back. */
  lemma KeyThenRead(t: Orgs, id: nat, key: string, r: Result<string>, t': Orgs, owner: string, k: nat)
    requires UniqueIds(t.rows)
    requires KeyUpdated(t, id, key, r, t')
    requires owner != [] && k < |t.rows| && Owned(t.rows[k], id, owner)
    ensures r == Ok(key)
    ensures OrganisationById(t', Some(owner), id) == Ok(t.rows[k].(key := Some(key)))
  {
    PatchTouchesOneRow(t.rows, id, NewKey(key), k);
    assert t' == t.(rows := PatchLive(t.rows, id, NewKey(key)));
    assert t'.rows[k] == t.rows[k].(key := Some(key));
    PatchKeepsIds(t.rows, id, NewKey(key));
    ReadFindsRow(t', owner, id, k);
  }

  lemma PatchKeepsIds(rows: seq<Org>, id: nat, p: Patch)
    requires UniqueIds(rows)
    ensures UniqueIds(PatchLive(rows, id, p))
  {
    var xs := PatchLive(rows, id, p);
    forall i | 0 <= i < |xs| ensures xs[i].id == rows[i].id {
      PatchKeepsId(rows[i], id, p);
    }
  }
}
