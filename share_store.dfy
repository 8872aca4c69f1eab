/**
 * The sharing controller. A file's owner grants another user `view`,
 * `edit` or `comment` access to it; the sharer may change that
 * permission; the sharer, the recipient or the file's owner may withdraw
 * the share; and the recipient or the sharer may read it back. The
 * tables are `shares`, the columns of `files` the controller reads, and
 * the ids of `users`; `nextId` stands for the serial behind `shares.id`.
 */
module ShareStore {
  import opened Common

  /** A row of `shares`. */
  datatype Share = Share(id: nat, fileId: string, userId: string, permission: string, sharedBy: string)

  /** The columns of `files` this controller reads. It filters on a column named `trashed`. */
  datatype SharedFile = SharedFile(id: string, ownerId: string, trashed: bool)

  datatype Sharing = Sharing(shares: seq<Share>, files: seq<SharedFile>, users: seq<string>, nextId: nat)

  /** `['view', 'edit', 'comment'].includes(permission)`. */
  predicate ValidPermission(p: string)
  {
    p == "view" || p == "edit" || p == "comment"
  }

  /** `SELECT … FROM files WHERE id = $1 AND owner_id = $2 AND trashed = false` finds a row. */
  predicate OwnsLiveFile(files: seq<SharedFile>, fileId: string, owner: string)
  {
    exists j :: 0 <= j < |files| && files[j].id == fileId && files[j].ownerId == owner && !files[j].trashed
  }

  predicate HasFile(files: seq<SharedFile>, fileId: string)
  {
    exists j :: 0 <= j < |files| && files[j].id == fileId
  }

  predicate IsUser(users: seq<string>, id: string)
  {
    exists k :: 0 <= k < |users| && users[k] == id
  }

  /** `SELECT id FROM shares WHERE file_id = $1 AND user_id = $2` finds a row. */
  predicate Paired(shares: seq<Share>, fileId: string, userId: string)
  {
    exists i :: 0 <= i < |shares| && shares[i].fileId == fileId && shares[i].userId == userId
  }

  predicate UniqueIds(shares: seq<Share>)
  {
    forall i, j :: 0 <= i < j < |shares| ==> shares[i].id != shares[j].id
  }

  predicate UniquePairs(shares: seq<Share>)
  {
    forall i, j :: 0 <= i < j < |shares| ==> shares[i].fileId != shares[j].fileId || shares[i].userId != shares[j].userId
  }

  /**
   * What the handlers keep true: ids are distinct and below the serial
   * counter, a file is shared with a user at most once, and nobody is the
   * recipient of their own share.
   */
  predicate WellFormed(t: Sharing)
  {
    UniqueIds(t.shares) && UniquePairs(t.shares)
    && forall i :: 0 <= i < |t.shares| ==> t.shares[i].id < t.nextId && t.shares[i].userId != t.shares[i].sharedBy
  }

  // ---------------------------------------------------------------------
  // shareItem
  // ---------------------------------------------------------------------

  /**
   * `shareItem`, its checks in the handler's order: 400 for a missing
   * field or an unknown permission, 404 unless the caller owns the file
   * and it is not trashed, 400 for sharing with oneself, 404 for an
   * unknown recipient, 409 when the file is already shared with them.
   * Otherwise one row is inserted with the caller as `shared_by`.
   */
  ghost predicate Shared(t: Sharing, owner: string, fileId: Option<string>, userId: Option<string>,
                         permission: Option<string>, r: Result<Share>, t': Sharing)
  {
    if !Truthy(fileId) || !Truthy(userId) || !Truthy(permission) then r == Err(BadRequest) && t' == t
    else if !ValidPermission(permission.value) then r == Err(BadRequest) && t' == t
    else if !OwnsLiveFile(t.files, fileId.value, owner) then r == Err(NotFound) && t' == t
    else if userId.value == owner then r == Err(BadRequest) && t' == t
    else if !IsUser(t.users, userId.value) then r == Err(NotFound) && t' == t
    else if Paired(t.shares, fileId.value, userId.value) then r == Err(Conflict) && t' == t
    else
      var s := Share(t.nextId, fileId.value, userId.value, permission.value, owner);
      r == Ok(s) && t' == t.(shares := t.shares + [s], nextId := t.nextId + 1)
  }

  // ---------------------------------------------------------------------
  // updateSharePermissions
  // ---------------------------------------------------------------------

  /** The first share with the id that the caller made. */
  function SharedBy(shares: seq<Share>, id: nat, sharer: string): (r: Option<Share>)
    ensures r.None? <==> forall i :: 0 <= i < |shares| ==> !(shares[i].id == id && shares[i].sharedBy == sharer)
    ensures r.Some? ==> r.value in shares && r.value.id == id && r.value.sharedBy == sharer
  {
    if shares == [] then None
    else if shares[0].id == id && shares[0].sharedBy == sharer then Some(shares[0])
    else
      var r := SharedBy(shares[1..], id, sharer);
      assert forall i :: 1 <= i < |shares| ==> shares[i] == shares[1..][i - 1];
      r
  }

  /** `UPDATE shares SET permission = $1 WHERE id = $2 AND shared_by = $3`. */
  function SetPermission(shares: seq<Share>, id: nat, sharer: string, p: string): (r: seq<Share>)
    ensures |r| == |shares|
    ensures forall i :: 0 <= i < |shares| ==>
              r[i] == if shares[i].id == id && shares[i].sharedBy == sharer then shares[i].(permission := p) else shares[i]
  {
    if shares == [] then []
    else [if shares[0].id == id && shares[0].sharedBy == sharer then shares[0].(permission := p) else shares[0]]
         + SetPermission(shares[1..], id, sharer, p)
  }

  /**
   * `updateSharePermissions`: 400 for a missing or unknown permission, 404
   * when the caller made no share with the id; otherwise the permission is
   * written and the updated row returned.
   */
  ghost predicate PermissionChanged(t: Sharing, caller: string, id: nat, permission: Option<string>,
                                    r: Result<Share>, t': Sharing)
  {
    if !Truthy(permission) || !ValidPermission(permission.value) then r == Err(BadRequest) && t' == t
    else
      match SharedBy(t.shares, id, caller)
      case None => r == Err(NotFound) && t' == t
      case Some(s) =>
        r == Ok(s.(permission := permission.value))
        && t' == t.(shares := SetPermission(t.shares, id, caller, permission.value))
  }

  // ---------------------------------------------------------------------
  // removeShare
  // ---------------------------------------------------------------------

  /** The join of the share with its file leaves a row in which the caller is sharer, recipient or file owner. */
  predicate MayRemove(files: seq<SharedFile>, s: Share, caller: string)
  {
    exists j :: 0 <= j < |files| && files[j].id == s.fileId
                && (s.sharedBy == caller || s.userId == caller || files[j].ownerId == caller)
  }

  predicate Removable(t: Sharing, id: nat, caller: string)
  {
    exists i :: 0 <= i < |t.shares| && t.shares[i].id == id && MayRemove(t.files, t.shares[i], caller)
  }

  /** `DELETE FROM shares WHERE id = $1`. */
  function WithoutShare(shares: seq<Share>, id: nat): (r: seq<Share>)
    ensures forall s :: s in r <==> s in shares && s.id != id
  {
    if shares == [] then []
    else (if shares[0].id == id then [] else [shares[0]]) + WithoutShare(shares[1..], id)
  }

  /** `removeShare`: 404 unless the caller may remove the share; otherwise every row with the id is deleted. */
  ghost predicate ShareRemoved(t: Sharing, caller: string, id: nat, r: Result<nat>, t': Sharing)
  {
    if !Removable(t, id, caller) then r == Err(NotFound) && t' == t
    else r == Ok(id) && t' == t.(shares := WithoutShare(t.shares, id))
  }

  // ---------------------------------------------------------------------
  // getShareDetails
  // ---------------------------------------------------------------------

  /**
   * The caller is the recipient or the sharer, and the joins with the file
   * and with both users find their rows.
   */
  predicate Visible(t: Sharing, s: Share, caller: string)
  {
    (s.userId == caller || s.sharedBy == caller)
    && HasFile(t.files, s.fileId) && IsUser(t.users, s.userId) && IsUser(t.users, s.sharedBy)
  }

  function FirstVisible(shares: seq<Share>, t: Sharing, caller: string, id: nat): (r: Option<Share>)
    ensures r.None? <==> forall i :: 0 <= i < |shares| ==> !(shares[i].id == id && Visible(t, shares[i], caller))
    ensures r.Some? ==> r.value in shares && r.value.id == id && Visible(t, r.value, caller)
  {
    if shares == [] then None
    else if shares[0].id == id && Visible(t, shares[0], caller) then Some(shares[0])
    else
      var r := FirstVisible(shares[1..], t, caller, id);
      assert forall i :: 1 <= i < |shares| ==> shares[i] == shares[1..][i - 1];
      r
  }

  /**
   * `getShareDetails`, which changes nothing: the share with the id when
   * the caller is its recipient or its sharer, and 404 otherwise.
   */
  function ShareDetails(t: Sharing, caller: string, id: nat): (r: Result<Share>)
    ensures r.Ok? <==> exists i :: 0 <= i < |t.shares| && t.shares[i].id == id && Visible(t, t.shares[i], caller)
    ensures r.Ok? ==> r.value in t.shares && r.value.id == id && (r.value.userId == caller || r.value.sharedBy == caller)
    ensures r.Err? ==> r.failure == NotFound
  {
    match FirstVisible(t.shares, t, caller, id)
    case None => Err(NotFound)
    case Some(s) => Ok(s)
  }

  // ---------------------------------------------------------------------
  // The tables as a class
  // ---------------------------------------------------------------------

  class ShareDb {
    var shares: seq<Share>
    var files: seq<SharedFile>
    var users: seq<string>
    var nextId: nat

    function State(): Sharing
      reads this
    {
      Sharing(shares, files, users, nextId)
    }

    predicate Valid()
      reads this
    {
      WellFormed(State())
    }

    constructor (t: Sharing)
      requires WellFormed(t)
      ensures Valid() && State() == t
    {
      shares, files, users, nextId := t.shares, t.files, t.users, t.nextId;
    }

    method ShareItem(owner: string, fileId: Option<string>, userId: Option<string>, permission: Option<string>)
      returns (r: Result<Share>)
      requires Valid()
      modifies this
      ensures Valid()
      ensures Shared(old(State()), owner, fileId, userId, permission, r, State())
    {
      if !Truthy(fileId) || !Truthy(userId) || !Truthy(permission) {
        return Err(BadRequest);
      }
      if !ValidPermission(permission.value) {
        return Err(BadRequest);
      }
      if !OwnsLiveFile(files, fileId.value, owner) {
        return Err(NotFound);
      }
      if userId.value == owner {
        return Err(BadRequest);
      }
      if !IsUser(users, userId.value) {
        return Err(NotFound);
      }
      if Paired(shares, fileId.value, userId.value) {
        return Err(Conflict);
      }
      var s := Share(nextId, fileId.value, userId.value, permission.value, owner);
      ShareKeepsWellFormed(State(), s);
      shares := shares + [s];
      nextId := nextId + 1;
      r := Ok(s);
    }

    method UpdateSharePermissions(caller: string, id: nat, permission: Option<string>) returns (r: Result<Share>)
      requires Valid()
      modifies this
      ensures Valid()
      ensures PermissionChanged(old(State()), caller, id, permission, r, State())
    {
      if !Truthy(permission) || !ValidPermission(permission.value) {
        return Err(BadRequest);
      }
      var found := SharedBy(shares, id, caller);
      if found.None? {
        return Err(NotFound);
      }
      shares := SetPermission(shares, id, caller, permission.value);
      r := Ok(found.value.(permission := permission.value));
    }

    method RemoveShare(caller: string, id: nat) returns (r: Result<nat>)
      requires Valid()
      modifies this
      ensures Valid()
      ensures ShareRemoved(old(State()), caller, id, r, State())
    {
      if !Removable(State(), id, caller) {
        return Err(NotFound);
      }
      WithoutShareKeepsWellFormed(State(), id);
      shares := WithoutShare(shares, id);
      r := Ok(id);
    }
  }

  // ---------------------------------------------------------------------
  // The invariant
  // ---------------------------------------------------------------------

  /** Appending a share for a new pair, under the next serial id, to someone other than the sharer keeps the invariant. */
  lemma ShareKeepsWellFormed(t: Sharing, s: Share)
    requires WellFormed(t)
    requires s.id == t.nextId && s.userId != s.sharedBy && !Paired(t.shares, s.fileId, s.userId)
    ensures WellFormed(t.(shares := t.shares + [s], nextId := t.nextId + 1))
  {
    var xs := t.shares + [s];
    assert forall i :: 0 <= i < |t.shares| ==> xs[i] == t.shares[i];
  }

  lemma ConsKeepsUnique(h: Share, rest: seq<Share>)
    requires UniqueIds(rest) && UniquePairs(rest)
    requires forall x :: x in rest ==> x.id != h.id && (x.fileId != h.fileId || x.userId != h.userId)
    ensures UniqueIds([h] + rest) && UniquePairs([h] + rest)
  {
    var xs := [h] + rest;
    forall j | 0 < j < |xs| ensures xs[j] == rest[j - 1] && xs[j] in rest {
    }
  }

  lemma {:induction false} WithoutKeepsUnique(shares: seq<Share>, id: nat)
    requires UniqueIds(shares) && UniquePairs(shares)
    ensures UniqueIds(WithoutShare(shares, id)) && UniquePairs(WithoutShare(shares, id))
    decreases |shares|
  {
    if shares != [] {
      var tail := shares[1..];
      assert forall i :: 0 <= i < |tail| ==> tail[i] == shares[i + 1];
      WithoutKeepsUnique(tail, id);
      var rest := WithoutShare(tail, id);
      if shares[0].id != id {
        forall x | x in rest
          ensures x.id != shares[0].id && (x.fileId != shares[0].fileId || x.userId != shares[0].userId)
        {
          var k :| 0 <= k < |tail| && tail[k] == x;
          assert shares[k + 1] == x;
        }
        ConsKeepsUnique(shares[0], rest);
      }
    }
  }

  lemma WithoutShareKeepsWellFormed(t: Sharing, id: nat)
    requires WellFormed(t)
    ensures WellFormed(t.(shares := WithoutShare(t.shares, id)))
  {
    WithoutKeepsUnique(t.shares, id);
    var xs := WithoutShare(t.shares, id);
    forall i | 0 <= i < |xs| ensures xs[i].id < t.nextId && xs[i].userId != xs[i].sharedBy {
      assert xs[i] in t.shares;
    }
  }
}
