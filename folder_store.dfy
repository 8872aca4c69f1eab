/**
 * The folder controller's handlers that change the `folders` table:
 * creating a folder, renaming one and deleting one. Only custom folders can
 * be renamed or deleted, so the system folders the mail handlers look up
 * are never disturbed.
 */
module FolderStore {
  import opened Common
  import opened MailRows
  import opened FolderRules
  import opened MailCompose

  /** `folder_id` is the primary key and a user's folder names are unique. */
  predicate UniqueFolders(folders: seq<Folder>)
  {
    forall i, j :: 0 <= i < j < |folders| ==>
      folders[i].folderId != folders[j].folderId
      && (folders[i].userId == folders[j].userId ==> folders[i].name != folders[j].name)
  }

  /** Another folder of the user, not `except`, already has this name. */
  predicate NameTaken(folders: seq<Folder>, userId: string, name: string, except: Option<Id>)
  {
    exists f :: f in folders && f.userId == userId && f.name == name && Some(f.folderId) != except
  }

  /** `SELECT * FROM folders WHERE folder_id = $1 AND user_id = $2`, first row. */
  function FolderOfUser(folders: seq<Folder>, id: Id, userId: string): (r: Option<Folder>)
    ensures r.Some? ==> r.value in folders && r.value.folderId == id && r.value.userId == userId
    ensures r.None? <==> !OwnsFolder(folders, userId, id)
  {
    if folders == [] then None
    else if folders[0].folderId == id && folders[0].userId == userId then Some(folders[0])
    else
      var rest := FolderOfUser(folders[1..], id, userId);
      assert OwnsFolder(folders[1..], userId, id) ==> OwnsFolder(folders, userId, id) by {
        if OwnsFolder(folders[1..], userId, id) {
          var f :| f in folders[1..] && f.userId == userId && f.folderId == id;
          assert f in folders;
        }
      }
      rest
  }

  /** `UPDATE folders SET name = $1 WHERE folder_id = $2 AND user_id = $3`. */
  function RenameFolder(folders: seq<Folder>, id: Id, userId: string, name: string): (r: seq<Folder>)
    ensures |r| == |folders|
    ensures forall i :: 0 <= i < |folders| ==>
              r[i] == if folders[i].folderId == id && folders[i].userId == userId then folders[i].(name := name)
                      else folders[i]
  {
    if folders == [] then []
    else [if folders[0].folderId == id && folders[0].userId == userId then folders[0].(name := name) else folders[0]]
         + RenameFolder(folders[1..], id, userId, name)
  }

  /** `DELETE FROM folders WHERE folder_id = $1 AND user_id = $2`. */
  function RemoveFolder(folders: seq<Folder>, id: Id, userId: string): (r: seq<Folder>)
    ensures forall f :: f in r <==> f in folders && !(f.folderId == id && f.userId == userId)
    ensures |r| <= |folders|
  {
    if folders == [] then []
    else (if folders[0].folderId == id && folders[0].userId == userId then [] else [folders[0]])
         + RemoveFolder(folders[1..], id, userId)
  }

  /**
   * `createFolder`: the request checks, then 400 for a parent the caller
   * does not own and 400 for a name the caller already uses (the unique
   * violation); otherwise the folder is inserted with its defaults.
   */
  ghost predicate FolderCreated(before: seq<Folder>, after: seq<Folder>, userId: string, req: NewFolder,
                                r: Result<Folder>)
  {
    if CheckNewFolder(req).Some? then r == Err(CheckNewFolder(req).value) && after == before
    else if req.parentId.Some? && !OwnsFolder(before, userId, req.parentId.value) then
      r == Err(BadRequest) && after == before
    else if NameTaken(before, userId, req.name, None) then r == Err(BadRequest) && after == before
    else
      var f := FolderRow(NextFolderId(before), userId, req);
      r == Ok(f) && after == before + [f]
  }

  /**
   * `editFolder`: 400 without an id or a name, 404 for a folder the caller
   * does not own, 403 for a system folder, 400 for a name another of the
   * caller's folders has; otherwise the folder is renamed.
   */
  ghost predicate FolderRenamed(before: seq<Folder>, after: seq<Folder>, userId: string, id: Option<Id>, name: string,
                                r: Result<Id>)
  {
    if id.None? || name == [] then r == Err(BadRequest) && after == before
    else match FolderOfUser(before, id.value, userId)
      case None => r == Err(NotFound) && after == before
      case Some(f) =>
        if f.kind != "custom" then r == Err(Forbidden) && after == before
        else if NameTaken(before, userId, name, id) then r == Err(BadRequest) && after == before
        else r == Ok(id.value) && after == RenameFolder(before, id.value, userId, name)
  }

  /**
   * `deleteFolder`: 400 without an id, 404 for a folder the caller does not
   * own, 403 for a system folder; otherwise the folder row is removed.
   */
  ghost predicate FolderDeleted(before: seq<Folder>, after: seq<Folder>, userId: string, id: Option<Id>,
                                r: Result<Id>)
  {
    if id.None? then r == Err(BadRequest) && after == before
    else match FolderOfUser(before, id.value, userId)
      case None => r == Err(NotFound) && after == before
      case Some(f) =>
        if f.kind != "custom" then r == Err(Forbidden) && after == before
        else r == Ok(id.value) && after == RemoveFolder(before, id.value, userId)
  }

  class FolderDb {
    var folders: seq<Folder>

    ghost predicate Valid()
      reads this
    {
      UniqueFolders(folders)
    }

    constructor (folders: seq<Folder>)
      requires UniqueFolders(folders)
      ensures Valid() && this.folders == folders
    {
      this.folders := folders;
    }

    /** `createFolder`. */
    method CreateFolder(userId: string, req: NewFolder) returns (r: Result<Folder>)
      requires Valid()
      modifies this
      ensures Valid()
      ensures FolderCreated(old(folders), folders, userId, req, r)
    {
      var refused := CheckNewFolder(req);
      if refused.Some? {
        return Err(refused.value);
      }
      if req.parentId.Some? && FolderOfUser(folders, req.parentId.value, userId).None? {
        return Err(BadRequest);
      }
      if NameTaken(folders, userId, req.name, None) {
        return Err(BadRequest);
      }
      var f := FolderRow(NextFolderId(folders), userId, req);
      folders := folders + [f];
      r := Ok(f);
    }

    /** `editFolder`. */
    method EditFolder(userId: string, id: Option<Id>, name: string) returns (r: Result<Id>)
      requires Valid()
      modifies this
      ensures Valid()
      ensures FolderRenamed(old(folders), folders, userId, id, name, r)
    {
      if id.None? || name == [] {
        return Err(BadRequest);
      }
      var found := FolderOfUser(folders, id.value, userId);
      if found.None? {
        return Err(NotFound);
      }
      if found.value.kind != "custom" {
        return Err(Forbidden);
      }
      if NameTaken(folders, userId, name, id) {
        return Err(BadRequest);
      }
      RenameKeepsUnique(folders, id.value, userId, name);
      folders := RenameFolder(folders, id.value, userId, name);
      r := Ok(id.value);
    }

    /** `deleteFolder`. */
    method DeleteFolder(userId: string, id: Option<Id>) returns (r: Result<Id>)
      requires Valid()
      modifies this
      ensures Valid()
      ensures FolderDeleted(old(folders), folders, userId, id, r)
    {
      if id.None? {
        return Err(BadRequest);
      }
      var found := FolderOfUser(folders, id.value, userId);
      if found.None? {
        return Err(NotFound);
      }
      if found.value.kind != "custom" {
        return Err(Forbidden);
      }
      RemoveKeepsUnique(folders, id.value, userId);
      folders := RemoveFolder(folders, id.value, userId);
      r := Ok(id.value);
    }
  }

  // ---------------------------------------------------------------------
  // Properties
  // ---------------------------------------------------------------------

  lemma RenameKeepsUnique(folders: seq<Folder>, id: Id, userId: string, name: string)
    requires UniqueFolders(folders)
    requires !NameTaken(folders, userId, name, Some(id))
    ensures UniqueFolders(RenameFolder(folders, id, userId, name))
  {
    var r := RenameFolder(folders, id, userId, name);
    forall i, j | 0 <= i < j < |r|
      ensures r[i].folderId != r[j].folderId && (r[i].userId == r[j].userId ==> r[i].name != r[j].name)
    {
      assert folders[i] in folders && folders[j] in folders;
    }
  }

  lemma UniqueCons(x: Folder, s: seq<Folder>)
    requires UniqueFolders(s)
    requires forall g :: g in s ==> g.folderId != x.folderId && (g.userId == x.userId ==> g.name != x.name)
    ensures UniqueFolders([x] + s)
  {
    var t := [x] + s;
    forall i, j | 0 <= i < j < |t|
      ensures t[i].folderId != t[j].folderId && (t[i].userId == t[j].userId ==> t[i].name != t[j].name)
    {
      assert t[j] == s[j - 1];
      if i == 0 {
        assert s[j - 1] in s;
      } else {
        assert t[i] == s[i - 1];
      }
    }
  }

  lemma {:induction false} RemoveKeepsUnique(folders: seq<Folder>, id: Id, userId: string)
    requires UniqueFolders(folders)
    ensures UniqueFolders(RemoveFolder(folders, id, userId))
    decreases |folders|
  {
    if folders != [] {
      var rest := folders[1..];
      assert UniqueFolders(rest) by {
        forall i, j | 0 <= i < j < |rest|
          ensures rest[i].folderId != rest[j].folderId && (rest[i].userId == rest[j].userId ==> rest[i].name != rest[j].name)
        {
          assert rest[i] == folders[i + 1] && rest[j] == folders[j + 1];
        }
      }
      RemoveKeepsUnique(rest, id, userId);
      if !(folders[0].folderId == id && folders[0].userId == userId) {
        forall g | g in RemoveFolder(rest, id, userId)
          ensures g.folderId != folders[0].folderId && (g.userId == folders[0].userId ==> g.name != folders[0].name)
        {
          var k :| 0 <= k < |rest| && rest[k] == g;
          assert folders[k + 1] == g;
        }
        UniqueCons(folders[0], RemoveFolder(rest, id, userId));
      }
    }
  }

  /** Renaming keeps every folder's id, owner and type, so no type lookup changes. */
  lemma {:induction false} RenameKeepsFirstLookup(folders: seq<Folder>, id: Id, userId: string, name: string,
                                                  owner: string, kind: string)
    ensures FirstFolder(RenameFolder(folders, id, userId, name), owner, kind) == FirstFolder(folders, owner, kind)
    decreases |folders|
  {
    if folders != [] {
      var r := RenameFolder(folders, id, userId, name);
      assert r[1..] == RenameFolder(folders[1..], id, userId, name);
      assert IsFolderOf(r[0], owner, kind) == IsFolderOf(folders[0], owner, kind);
      RenameKeepsFirstLookup(folders[1..], id, userId, name, owner, kind);
    }
  }

  /** Removing a custom folder leaves every lookup of another type unchanged. */
  lemma {:induction false} RemoveKeepsTypeLookups(folders: seq<Folder>, id: Id, userId: string, owner: string, kind: string)
    requires forall f :: f in folders && f.folderId == id && f.userId == userId ==> f.kind == "custom"
    requires kind != "custom"
    ensures FirstFolder(RemoveFolder(folders, id, userId), owner, kind) == FirstFolder(folders, owner, kind)
    decreases |folders|
  {
    if folders != [] {
      assert folders[0] in folders;
      RemoveKeepsTypeLookups(folders[1..], id, userId, owner, kind);
      if folders[0].folderId == id && folders[0].userId == userId {
        assert RemoveFolder(folders, id, userId) == RemoveFolder(folders[1..], id, userId);
      } else {
        assert RemoveFolder(folders, id, userId) == [folders[0]] + RemoveFolder(folders[1..], id, userId);
      }
    }
  }

  /**
   * Whatever an edit or a delete answers, the folders the mail handlers
   * look up by type are the same before and after: renaming changes only
   * names, and only custom folders are ever removed.
   */
  lemma EditsSpareSystemFolders(before: seq<Folder>, renamed: seq<Folder>, removed: seq<Folder>, userId: string,
                                id: Option<Id>, name: string, r1: Result<Id>, r2: Result<Id>,
                                owner: string, kind: string)
    requires UniqueFolders(before)
    requires FolderRenamed(before, renamed, userId, id, name, r1)
    requires FolderDeleted(before, removed, userId, id, r2)
    requires kind != "custom"
    ensures FirstFolder(renamed, owner, kind) == FirstFolder(before, owner, kind)
    ensures FirstFolder(removed, owner, kind) == FirstFolder(before, owner, kind)
  {
    if id.Some? && name != [] {
      RenameKeepsFirstLookup(before, id.value, userId, name, owner, kind);
    }
    if id.Some? {
      var found := FolderOfUser(before, id.value, userId);
      if found.Some? && found.value.kind == "custom" {
        forall f | f in before && f.folderId == id.value && f.userId == userId ensures f.kind == "custom" {
          var i :| 0 <= i < |before| && before[i] == f;
          var j :| 0 <= j < |before| && before[j] == found.value;
          assert i == j;
        }
        RemoveKeepsTypeLookups(before, id.value, userId, owner, kind);
      }
    }
  }

  /** A folder of a new id is found by its id and owner. */
  lemma {:induction false} AppendedFolderFound(folders: seq<Folder>, f: Folder)
    requires forall i :: 0 <= i < |folders| ==> folders[i].folderId != f.folderId
    ensures FolderOfUser(folders + [f], f.folderId, f.userId) == Some(f)
    decreases |folders|
  {
    if folders == [] {
      assert folders + [f] == [f];
    } else {
      assert (folders + [f])[0] == folders[0];
      assert (folders + [f])[1..] == folders[1..] + [f];
      assert forall i :: 0 <= i < |folders[1..]| ==> folders[1..][i] == folders[i + 1];
      AppendedFolderFound(folders[1..], f);
    }
  }

  /** Removing a folder of a new id leaves the table as it was. */
  lemma {:induction false} AppendedFolderRemoves(folders: seq<Folder>, f: Folder)
    requires forall i :: 0 <= i < |folders| ==> folders[i].folderId != f.folderId
    ensures RemoveFolder(folders + [f], f.folderId, f.userId) == folders
    decreases |folders|
  {
    if folders == [] {
      assert folders + [f] == [f] + [];
      RemoveFolderCons(f, [], f.folderId, f.userId);
    } else {
      var rest := folders[1..];
      assert folders + [f] == [folders[0]] + (rest + [f]);
      RemoveFolderCons(folders[0], rest + [f], f.folderId, f.userId);
      assert forall i :: 0 <= i < |rest| ==> rest[i] == folders[i + 1];
      AppendedFolderRemoves(rest, f);
      assert folders == [folders[0]] + rest;
    }
  }

  lemma RemoveFolderCons(x: Folder, rest: seq<Folder>, id: Id, userId: string)
    ensures RemoveFolder([x] + rest, id, userId)
            == (if x.folderId == id && x.userId == userId then [] else [x]) + RemoveFolder(rest, id, userId)
  {
    assert ([x] + rest)[0] == x && ([x] + rest)[1..] == rest;
  }

  /**
   * A custom folder just created can be deleted again, which restores the
   * table; a folder created with a system type can be neither renamed nor
   * deleted.
   */
  lemma CreateThenDelete(before: seq<Folder>, created: seq<Folder>, after: seq<Folder>, userId: string,
                         req: NewFolder, r1: Result<Folder>, r2: Result<Id>)
    requires FolderCreated(before, created, userId, req, r1) && r1.Ok?
    requires FolderDeleted(created, after, userId, Some(r1.value.folderId), r2)
    ensures KindOf(req) == Some("custom") ==> r2 == Ok(r1.value.folderId) && after == before
    ensures KindOf(req) != Some("custom") ==> r2 == Err(Forbidden) && after == created
  {
    var f := FolderRow(NextFolderId(before), userId, req);
    assert forall i :: 0 <= i < |before| ==> before[i] in before;
    AppendedFolderFound(before, f);
    AppendedFolderRemoves(before, f);
  }

  /**
   * Creating two folders of one name for one user: the second request is
   * refused with 400 and the table keeps the first only.
   */
  lemma CreateTwiceRefused(before: seq<Folder>, once: seq<Folder>, twice: seq<Folder>, userId: string,
                           req: NewFolder, r1: Result<Folder>, r2: Result<Folder>)
    requires FolderCreated(before, once, userId, req, r1) && r1.Ok?
    requires FolderCreated(once, twice, userId, req, r2)
    ensures r2 == Err(BadRequest) && twice == once
  {
    var f := FolderRow(NextFolderId(before), userId, req);
    assert f in once;
    if req.parentId.Some? {
      var p :| p in before && p.userId == userId && p.folderId == req.parentId.value;
      assert p in once;
    }
  }
}
