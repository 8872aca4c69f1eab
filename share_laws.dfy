/**
 * Properties of the sharing controller model: a file is shared with a
 * user at most once, a new share is visible to exactly its two parties,
 * sharing and then withdrawing restores the table, only the sharer
 * changes a permission, and a removed share is gone for everyone.
 */
module ShareLaws {
  import opened Common
  import opened ShareStore

  /** Sharing the same file with the same user a second time answers 409 and changes nothing. */
  lemma SecondShareConflicts(t: Sharing, owner: string, fileId: string, userId: string, p: string, s: Share,
                             t': Sharing, p': string, r': Result<Share>, t'': Sharing)
    requires Shared(t, owner, Some(fileId), Some(userId), Some(p), Ok(s), t')
    requires Shared(t', owner, Some(fileId), Some(userId), Some(p'), r', t'')
    requires p' != [] && ValidPermission(p')
    ensures r' == Err(Conflict) && t'' == t'
  {
    assert t'.shares[|t.shares|] == s;
    assert Paired(t'.shares, fileId, userId);
    assert OwnsLiveFile(t'.files, fileId, owner);
    assert IsUser(t'.users, userId);
  }

  /** After a share is made, its recipient and its sharer read it back, and nobody else does. */
  lemma ShareThenVisible(t: Sharing, owner: string, fileId: Option<string>, userId: Option<string>,
                         permission: Option<string>, s: Share, t': Sharing)
    requires WellFormed(t) && IsUser(t.users, owner)
    requires Shared(t, owner, fileId, userId, permission, Ok(s), t')
    ensures ShareDetails(t', owner, s.id) == Ok(s)
    ensures ShareDetails(t', s.userId, s.id) == Ok(s)
    ensures forall c :: c != owner && c != s.userId ==> ShareDetails(t', c, s.id) == Err(NotFound)
  {
    var n := |t.shares|;
    assert t'.shares[n] == s;
    assert forall i :: 0 <= i < n ==> t'.shares[i] == t.shares[i];
    assert HasFile(t'.files, s.fileId) by {
      var j :| 0 <= j < |t.files| && t.files[j].id == s.fileId && t.files[j].ownerId == owner && !t.files[j].trashed;
    }
    assert Visible(t', s, owner) && Visible(t', s, s.userId);
    forall x | x in t'.shares && x.id == s.id ensures x == s {
      var i :| 0 <= i < |t'.shares| && t'.shares[i] == x;
      if i < n {
        assert t.shares[i].id < t.nextId;
      }
    }
  }

  lemma {:induction false} WithoutFreshShare(shares: seq<Share>, s: Share)
    requires forall i :: 0 <= i < |shares| ==> shares[i].id != s.id
    ensures WithoutShare(shares + [s], s.id) == shares
    decreases |shares|
  {
    if shares == [] {
      assert [] + [s] == [s];
    } else {
      assert (shares + [s])[1..] == shares[1..] + [s];
      assert forall i :: 0 <= i < |shares[1..]| ==> shares[1..][i] == shares[i + 1];
      WithoutFreshShare(shares[1..], s);
      assert shares == [shares[0]] + shares[1..];
    }
  }

  /** The recipient may withdraw a share just made, and that restores the `shares` table. */
  lemma ShareThenRemove(t: Sharing, owner: string, fileId: Option<string>, userId: Option<string>,
                        permission: Option<string>, s: Share, t': Sharing, r: Result<nat>, t'': Sharing)
    requires WellFormed(t)
    requires Shared(t, owner, fileId, userId, permission, Ok(s), t')
    requires ShareRemoved(t', s.userId, s.id, r, t'')
    ensures r == Ok(s.id)
    ensures t''.shares == t.shares && t''.files == t.files && t''.users == t.users
  {
    var n := |t.shares|;
    assert t'.shares[n] == s;
    assert MayRemove(t'.files, s, s.userId) by {
      var j :| 0 <= j < |t.files| && t.files[j].id == s.fileId && t.files[j].ownerId == owner && !t.files[j].trashed;
    }
    assert Removable(t', s.id, s.userId);
    assert forall i :: 0 <= i < n ==> t.shares[i].id != s.id by {
      assert forall i :: 0 <= i < n ==> t.shares[i].id < t.nextId;
    }
    WithoutFreshShare(t.shares, s);
  }

  /**
   * A permission changes exactly when it is valid and the caller made the
   * share; only that share's permission changes.
   */
  lemma PermissionOnlyBySharer(t: Sharing, caller: string, id: nat, permission: Option<string>,
                               r: Result<Share>, t': Sharing)
    requires WellFormed(t)
    requires PermissionChanged(t, caller, id, permission, r, t')
    ensures r.Ok? <==> Truthy(permission) && ValidPermission(permission.value)
                       && exists i :: 0 <= i < |t.shares| && t.shares[i].id == id && t.shares[i].sharedBy == caller
    ensures r.Ok? ==> |t'.shares| == |t.shares|
                      && forall i :: 0 <= i < |t.shares| ==>
                           t'.shares[i] == if t.shares[i].id == id then t.shares[i].(permission := permission.value) else t.shares[i]
    ensures r.Ok? ==> r.value.id == id && r.value.sharedBy == caller && r.value.permission == permission.value
  {
    if r.Ok? {
      var s := SharedBy(t.shares, id, caller).value;
      var k :| 0 <= k < |t.shares| && t.shares[k] == s;
      assert forall i :: 0 <= i < |t.shares| && t.shares[i].id == id ==> i == k;
    }
  }

  /** A removed share can no longer be read by anyone, and every other share stays. */
  lemma RemovedShareIsGone(t: Sharing, caller: string, id: nat, r: Result<nat>, t': Sharing)
    requires ShareRemoved(t, caller, id, r, t')
    ensures r.Ok? <==> Removable(t, id, caller)
    ensures r.Ok? ==> forall c :: ShareDetails(t', c, id) == Err(NotFound)
    ensures forall x :: x in t.shares && x.id != id ==> x in t'.shares
  {
    if r.Ok? {
      forall c ensures ShareDetails(t', c, id) == Err(NotFound) {
        forall i | 0 <= i < |t'.shares| ensures t'.shares[i].id != id {
          assert t'.shares[i] in t'.shares;
        }
      }
    }
  }

  /** Someone who is neither sharer, recipient nor owner of the file cannot remove a share. */
  lemma StrangerCannotRemove(t: Sharing, caller: string, id: nat, r: Result<nat>, t': Sharing)
    requires ShareRemoved(t, caller, id, r, t')
    requires forall i, j :: 0 <= i < |t.shares| && 0 <= j < |t.files| && t.shares[i].id == id
                            && t.files[j].id == t.shares[i].fileId
                            ==> t.shares[i].sharedBy != caller && t.shares[i].userId != caller && t.files[j].ownerId != caller
    ensures r == Err(NotFound) && t' == t
  {
  }
}
