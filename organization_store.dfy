/**
 * The organisation controller: organisations are created and edited by
 * their owner, deleted softly by setting `is_deleted`, and patched one
 * column at a time (name, logo, ids, a regenerated key) by id alone.
 * `nextId` stands for the serial behind `organisation.id`.
 */
module OrganisationStore {
  import opened Common

  /**
   * The bytes in the `logo` column: the text of the request as sent, or the
   * bytes its base64 text decodes to. The decoding itself is not modelled.
   */
  datatype Logo = AsText(text: string) | FromBase64(text: string)

  /** A row of `organisation`; nullable columns are options, the timestamps are not modelled. */
  datatype Org = Org(id: nat, name: Option<string>, ids: Option<string>, logo: Option<Logo>, key: Option<string>,
                     userId: string, deleted: bool)

  datatype Orgs = Orgs(rows: seq<Org>, nextId: nat)

  predicate UniqueIds(rows: seq<Org>)
  {
    forall i, j :: 0 <= i < j < |rows| ==> rows[i].id != rows[j].id
  }

  /** Ids are distinct and below the serial counter. */
  predicate WellFormed(t: Orgs)
  {
    (forall i :: 0 <= i < |t.rows| ==> t.rows[i].id < t.nextId) && UniqueIds(t.rows)
  }

  /** `WHERE id = $1 AND user_id = $2 AND is_deleted = FALSE`. */
  predicate Owned(o: Org, id: nat, userId: string)
  {
    o.id == id && o.userId == userId && !o.deleted
  }

  function OwnedOrg(rows: seq<Org>, id: nat, userId: string): (r: Option<Org>)
    ensures r.None? <==> forall i :: 0 <= i < |rows| ==> !Owned(rows[i], id, userId)
    ensures r.Some? ==> r.value in rows && Owned(r.value, id, userId)
  {
    if rows == [] then None
    else if Owned(rows[0], id, userId) then Some(rows[0])
    else
      var r := OwnedOrg(rows[1..], id, userId);
      assert forall i :: 1 <= i < |rows| ==> rows[i] == rows[1..][i - 1];
      r
  }

  /** `WHERE id = $2 AND is_deleted = FALSE`: the owner is not consulted. */
  predicate Live(o: Org, id: nat)
  {
    o.id == id && !o.deleted
  }

  function LiveOrg(rows: seq<Org>, id: nat): (r: Option<Org>)
    ensures r.None? <==> forall i :: 0 <= i < |rows| ==> !Live(rows[i], id)
    ensures r.Some? ==> r.value in rows && Live(r.value, id)
  {
    if rows == [] then None
    else if Live(rows[0], id) then Some(rows[0])
    else
      var r := LiveOrg(rows[1..], id);
      assert forall i :: 1 <= i < |rows| ==> rows[i] == rows[1..][i - 1];
      r
  }

  // ---------------------------------------------------------------------
  // getAllOrganisations and getOrganisationById
  // ---------------------------------------------------------------------

  /** `getAllOrganisations`: every organisation not deleted, whoever asks, in table order. */
  function AllOrganisations(t: Orgs): (r: seq<Org>)
    ensures forall x :: x in r <==> x in t.rows && !x.deleted
    decreases |t.rows|
  {
    if t.rows == [] then []
    else (if !t.rows[0].deleted then [t.rows[0]] else []) + AllOrganisations(t.(rows := t.rows[1..]))
  }

  /** `getOrganisationById`: 401 without a user, the caller's organisation with the id unless deleted, or 404. */
  function OrganisationById(t: Orgs, userId: Option<string>, id: nat): (r: Result<Org>)
    ensures !Truthy(userId) ==> r == Err(Unauthorized)
    ensures Truthy(userId) ==> (r.Ok? <==> exists i :: 0 <= i < |t.rows| && Owned(t.rows[i], id, userId.value))
    ensures r.Ok? ==> r.value in t.rows && Owned(r.value, id, userId.value)
    ensures Truthy(userId) && r.Err? ==> r.failure == NotFound
  {
    if !Truthy(userId) then Err(Unauthorized)
    else
      match OwnedOrg(t.rows, id, userId.value)
      case None => Err(NotFound)
      case Some(o) => Ok(o)
  }

  // ---------------------------------------------------------------------
  // createOrganisation
  // ---------------------------------------------------------------------

  /**
   * `createOrganisation`: 401 without a user; otherwise a new row owned by
   * the caller, an absent field stored as NULL and an empty logo as well.
   */
  ghost predicate OrganisationCreated(t: Orgs, userId: Option<string>, name: Option<string>, ids: Option<string>,
                                      logo: Option<string>, key: Option<string>, r: Result<nat>, t': Orgs)
  {
    if !Truthy(userId) then r == Err(Unauthorized) && t' == t
    else
      var row := Org(t.nextId, name, ids, if Truthy(logo) then Some(AsText(logo.value)) else None, key, userId.value, false);
      r == Ok(t.nextId) && t' == Orgs(t.rows + [row], t.nextId + 1)
  }

  // ---------------------------------------------------------------------
  // updateOrganisation
  // ---------------------------------------------------------------------

  /** `x !== undefined ? x : org.x`: an absent field keeps the column, `null` clears it. */
  function Merge(f: Field, current: Option<string>): (r: Option<string>)
    ensures f.Undefined? ==> r == current
    ensures f.Null? ==> r.None?
    ensures f.Given? ==> r == Some(f.text)
  {
    match f
    case Undefined => current
    case Null => None
    case Given(s) => Some(s)
  }

  /** The columns `updateOrganisation` writes, taken from the merged values. */
  function Assign(o: Org, v: Org): Org
  {
    o.(name := v.name, ids := v.ids, logo := v.logo, key := v.key)
  }

  /** `UPDATE organisation SET name, ids, logo, key WHERE id = $5 AND user_id = $6`, deleted rows included. */
  function SetOwned(rows: seq<Org>, id: nat, userId: string, v: Org): (r: seq<Org>)
    ensures |r| == |rows|
    ensures forall i :: 0 <= i < |rows| ==>
              r[i] == if rows[i].id == id && rows[i].userId == userId then Assign(rows[i], v) else rows[i]
  {
    if rows == [] then []
    else [if rows[0].id == id && rows[0].userId == userId then Assign(rows[0], v) else rows[0]]
         + SetOwned(rows[1..], id, userId, v)
  }

  /**
   * `updateOrganisation`: 401 without a user, 404 unless the caller owns a
   * live organisation with the id, 500 for a `null` logo (which
   * `Buffer.from` refuses); otherwise each field is merged with the
   * current row and a given logo is stored base64-decoded.
   */
  ghost predicate OrganisationUpdated(t: Orgs, userId: Option<string>, id: nat, name: Field, ids: Field, logo: Field,
                                      key: Field, r: Result<Org>, t': Orgs)
  {
    if !Truthy(userId) then r == Err(Unauthorized) && t' == t
    else
      match OwnedOrg(t.rows, id, userId.value)
      case None => r == Err(NotFound) && t' == t
      case Some(current) =>
        if logo.Null? then r == Err(ServerError) && t' == t
        else
          var v := current.(name := Merge(name, current.name), ids := Merge(ids, current.ids),
                            logo := if logo.Given? then Some(FromBase64(logo.text)) else current.logo,
                            key := Merge(key, current.key));
          r == Ok(v) && t' == t.(rows := SetOwned(t.rows, id, userId.value, v))
  }

  // ---------------------------------------------------------------------
  // The single-column patches
  // ---------------------------------------------------------------------

  /** The column a patch writes and its new value. */
  datatype Patch = NewName(name: string) | NewLogo(logo: string) | NewIds(ids: string) | NewKey(key: string)

  function ApplyPatch(o: Org, p: Patch): Org
  {
    match p
    case NewName(n) => o.(name := Some(n))
    case NewLogo(l) => o.(logo := Some(AsText(l)))
    case NewIds(s) => o.(ids := Some(s))
    case NewKey(k) => o.(key := Some(k))
  }

  /** `UPDATE organisation SET … WHERE id = $2 AND is_deleted = FALSE`. */
  function PatchLive(rows: seq<Org>, id: nat, p: Patch): (r: seq<Org>)
    ensures |r| == |rows|
    ensures forall i :: 0 <= i < |rows| ==> r[i] == if Live(rows[i], id) then ApplyPatch(rows[i], p) else rows[i]
  {
    if rows == [] then []
    else [if Live(rows[0], id) then ApplyPatch(rows[0], p) else rows[0]] + PatchLive(rows[1..], id, p)
  }

  /** A patch answers 404 when no live organisation has the id, whoever owns it; otherwise the patched row. */
  ghost predicate Patched(t: Orgs, id: nat, p: Patch, r: Result<Org>, t': Orgs)
  {
    match LiveOrg(t.rows, id)
    case None => r == Err(NotFound) && t' == t
    case Some(current) => r == Ok(ApplyPatch(current, p)) && t' == t.(rows := PatchLive(t.rows, id, p))
  }

  /** `updateOrganisationName`: 400 for a falsy name, then the patch. */
  ghost predicate NameUpdated(t: Orgs, id: nat, name: Option<string>, r: Result<Org>, t': Orgs)
  {
    if !Truthy(name) then r == Err(BadRequest) && t' == t else Patched(t, id, NewName(name.value), r, t')
  }

  /** `updateOrganisationLogo`: 400 for a falsy logo, then the text stored as sent. */
  ghost predicate LogoUpdated(t: Orgs, id: nat, logo: Option<string>, r: Result<Org>, t': Orgs)
  {
    if !Truthy(logo) then r == Err(BadRequest) && t' == t else Patched(t, id, NewLogo(logo.value), r, t')
  }

  /** The `ids` of a request: an array of strings or a single string. */
  datatype IdsInput = IdList(items: seq<string>) | IdText(text: string)

  /** `Array.isArray(ids) ? ids.join(',') : ids`. */
  function IdsText(ids: IdsInput): string
  {
    match ids
    case IdList(xs) => Join(xs)
    case IdText(s) => s
  }

  /** `!ids` is false for every array, even an empty one, and for a non-empty string. */
  predicate IdsPresent(ids: Option<IdsInput>)
  {
    ids.Some? && (ids.value.IdList? || ids.value.text != [])
  }

  /** `updateOrganisationIds`: 400 for falsy ids, then the joined text. */
  ghost predicate IdsUpdated(t: Orgs, id: nat, ids: Option<IdsInput>, r: Result<Org>, t': Orgs)
  {
    if !IdsPresent(ids) then r == Err(BadRequest) && t' == t else Patched(t, id, NewIds(IdsText(ids.value)), r, t')
  }

  const Charset: string := "ABCDEFGHIJKLMNOPQRSTUVWXYZabcdefghijklmnopqrstuvwxyz0123456789"
  const KeyLength: nat := 50

  /**
   * The key spelled by a sequence of draws, each draw the index
   * `Math.floor(Math.random() * charset.length)` picked.
   */
  function KeyFrom(picks: seq<nat>): (r: string)
    requires forall i :: 0 <= i < |picks| ==> picks[i] < |Charset|
    ensures |r| == |picks|
    ensures forall i :: 0 <= i < |picks| ==> r[i] == Charset[picks[i]]
  {
    if picks == [] then [] else KeyFrom(picks[..|picks| - 1]) + [Charset[picks[|picks| - 1]]]
  }

  /** The loop of `updateOrganisationKey`: fifty characters drawn from the alphanumeric charset. */
  method NewKeyFrom(picks: seq<nat>) returns (key: string)
    requires |picks| == KeyLength && forall i :: 0 <= i < |picks| ==> picks[i] < |Charset|
    ensures key == KeyFrom(picks)
    ensures |key| == KeyLength && forall i :: 0 <= i < |key| ==> key[i] in Charset
  {
    key := "";
    var i := 0;
    while i < KeyLength
      invariant 0 <= i <= KeyLength
      invariant key == KeyFrom(picks[..i])
    {
      assert picks[..i + 1][..i] == picks[..i];
      key := key + [Charset[picks[i]]];
      i := i + 1;
    }
    assert picks[..KeyLength] == picks;
  }

  /** `updateOrganisationKey`: 404 when no live organisation has the id; otherwise the new key is stored and returned. */
  ghost predicate KeyUpdated(t: Orgs, id: nat, key: string, r: Result<string>, t': Orgs)
  {
    match LiveOrg(t.rows, id)
    case None => r == Err(NotFound) && t' == t
    case Some(_) => r == Ok(key) && t' == t.(rows := PatchLive(t.rows, id, NewKey(key)))
  }

  // ---------------------------------------------------------------------
  // deleteOrganisation
  // ---------------------------------------------------------------------

  /** `UPDATE organisation SET is_deleted = TRUE WHERE id = $1 AND user_id = $2 AND is_deleted = FALSE`. */
  function SoftDelete(rows: seq<Org>, id: nat, userId: string): (r: seq<Org>)
    ensures |r| == |rows|
    ensures forall i :: 0 <= i < |rows| ==> r[i] == if Owned(rows[i], id, userId) then rows[i].(deleted := true) else rows[i]
  {
    if rows == [] then []
    else [if Owned(rows[0], id, userId) then rows[0].(deleted := true) else rows[0]] + SoftDelete(rows[1..], id, userId)
  }

  /** `deleteOrganisation`: 401 without a user, 404 unless the caller owns a live organisation with the id. */
  ghost predicate OrganisationDeleted(t: Orgs, userId: Option<string>, id: nat, r: Result<()>, t': Orgs)
  {
    if !Truthy(userId) then r == Err(Unauthorized) && t' == t
    else if OwnedOrg(t.rows, id, userId.value).None? then r == Err(NotFound) && t' == t
    else r == Ok(()) && t' == t.(rows := SoftDelete(t.rows, id, userId.value))
  }

  // ---------------------------------------------------------------------
  // The table as a class
  // ---------------------------------------------------------------------

  class OrganisationDb {
    var rows: seq<Org>
    var nextId: nat

    function State(): Orgs
      reads this
    {
      Orgs(rows, nextId)
    }

    predicate Valid()
      reads this
    {
      WellFormed(State())
    }

    constructor (t: Orgs)
      requires WellFormed(t)
      ensures Valid() && State() == t
    {
      rows, nextId := t.rows, t.nextId;
    }

    method CreateOrganisation(userId: Option<string>, name: Option<string>, ids: Option<string>,
                              logo: Option<string>, key: Option<string>) returns (r: Result<nat>)
      requires Valid()
      modifies this
      ensures Valid()
      ensures OrganisationCreated(old(State()), userId, name, ids, logo, key, r, State())
    {
      if !Truthy(userId) {
        return Err(Unauthorized);
      }
      var row := Org(nextId, name, ids, if Truthy(logo) then Some(AsText(logo.value)) else None, key, userId.value, false);
      var xs := rows + [row];
      assert forall i :: 0 <= i < |rows| ==> xs[i] == rows[i];
      rows, nextId := xs, nextId + 1;
      r := Ok(row.id);
    }

    method UpdateOrganisation(userId: Option<string>, id: nat, name: Field, ids: Field, logo: Field, key: Field)
      returns (r: Result<Org>)
      requires Valid()
      modifies this
      ensures Valid()
      ensures OrganisationUpdated(old(State()), userId, id, name, ids, logo, key, r, State())
    {
      if !Truthy(userId) {
        return Err(Unauthorized);
      }
      var existing := OwnedOrg(rows, id, userId.value);
      if existing.None? {
        return Err(NotFound);
      }
      var current := existing.value;
      if logo.Null? {
        return Err(ServerError);
      }
      var v := current.(name := Merge(name, current.name), ids := Merge(ids, current.ids),
                        logo := if logo.Given? then Some(FromBase64(logo.text)) else current.logo,
                        key := Merge(key, current.key));
      SetOwnedKeepsWellFormed(State(), id, userId.value, v);
      rows := SetOwned(rows, id, userId.value, v);
      r := Ok(v);
    }

    /** The patch shared by the name, logo, ids and key handlers. */
    method PatchColumn(id: nat, p: Patch) returns (r: Result<Org>)
      requires Valid()
      modifies this
      ensures Valid()
      ensures Patched(old(State()), id, p, r, State())
    {
      var current := LiveOrg(rows, id);
      if current.None? {
        return Err(NotFound);
      }
      PatchKeepsWellFormed(State(), id, p);
      rows := PatchLive(rows, id, p);
      r := Ok(ApplyPatch(current.value, p));
    }

    method UpdateOrganisationName(id: nat, name: Option<string>) returns (r: Result<Org>)
      requires Valid()
      modifies this
      ensures Valid()
      ensures NameUpdated(old(State()), id, name, r, State())
    {
      if !Truthy(name) {
        return Err(BadRequest);
      }
      r := PatchColumn(id, NewName(name.value));
    }

    method UpdateOrganisationLogo(id: nat, logo: Option<string>) returns (r: Result<Org>)
      requires Valid()
      modifies this
      ensures Valid()
      ensures LogoUpdated(old(State()), id, logo, r, State())
    {
      if !Truthy(logo) {
        return Err(BadRequest);
      }
      r := PatchColumn(id, NewLogo(logo.value));
    }

    method UpdateOrganisationIds(id: nat, ids: Option<IdsInput>) returns (r: Result<Org>)
      requires Valid()
      modifies this
      ensures Valid()
      ensures IdsUpdated(old(State()), id, ids, r, State())
    {
      if !IdsPresent(ids) {
        return Err(BadRequest);
      }
      r := PatchColumn(id, NewIds(IdsText(ids.value)));
    }

    /** `picks` are the fifty draws from the random source. */
    method UpdateOrganisationKey(id: nat, picks: seq<nat>) returns (r: Result<string>)
      requires Valid()
      requires |picks| == KeyLength && forall i :: 0 <= i < |picks| ==> picks[i] < |Charset|
      modifies this
      ensures Valid()
      ensures KeyUpdated(old(State()), id, KeyFrom(picks), r, State())
    {
      var key := NewKeyFrom(picks);
      var patched := PatchColumn(id, NewKey(key));
      if patched.Err? {
        return Err(NotFound);
      }
      r := Ok(key);
    }

    method DeleteOrganisation(userId: Option<string>, id: nat) returns (r: Result<()>)
      requires Valid()
      modifies this
      ensures Valid()
      ensures OrganisationDeleted(old(State()), userId, id, r, State())
    {
      if !Truthy(userId) {
        return Err(Unauthorized);
      }
      if OwnedOrg(rows, id, userId.value).None? {
        return Err(NotFound);
      }
      SoftDeleteKeepsWellFormed(State(), id, userId.value);
      rows := SoftDelete(rows, id, userId.value);
      r := Ok(());
    }
  }

  /** None of the column writes touches an id. */
  lemma SetOwnedKeepsWellFormed(t: Orgs, id: nat, userId: string, v: Org)
    requires WellFormed(t)
    ensures WellFormed(t.(rows := SetOwned(t.rows, id, userId, v)))
  {
    var xs := SetOwned(t.rows, id, userId, v);
    assert forall i :: 0 <= i < |xs| ==> xs[i].id == t.rows[i].id;
  }

  lemma PatchKeepsWellFormed(t: Orgs, id: nat, p: Patch)
    requires WellFormed(t)
    ensures WellFormed(t.(rows := PatchLive(t.rows, id, p)))
  {
    var xs := PatchLive(t.rows, id, p);
    forall i | 0 <= i < |xs| ensures xs[i].id == t.rows[i].id {
      PatchKeepsId(t.rows[i], id, p);
    }
  }

  lemma PatchKeepsId(o: Org, id: nat, p: Patch)
    ensures (if Live(o, id) then ApplyPatch(o, p) else o).id == o.id
  {
  }

  lemma SoftDeleteKeepsWellFormed(t: Orgs, id: nat, userId: string)
    requires WellFormed(t)
    ensures WellFormed(t.(rows := SoftDelete(t.rows, id, userId)))
  {
    var xs := SoftDelete(t.rows, id, userId);
    assert forall i :: 0 <= i < |xs| ==> xs[i].id == t.rows[i].id;
  }
}
