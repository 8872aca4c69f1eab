/**
 * Properties of the drive controller model: what each handler charges or
 * refunds, how the three quota comparisons agree and where they part, the
 * names a copy receives (as written and as intended), the state flags,
 * rename, and the failed-deletion mark.
 */
module DriveLaws {
  import opened Common
  import opened DriveRules
  import opened DriveStore

  // ---------------------------------------------------------------------
  // Quota comparisons
  // ---------------------------------------------------------------------

  /** With a positive limit set, the three handlers refuse the same growth. */
  lemma QuotaChecksAgree(a: Account, size: nat)
    requires a.limit.Some? && a.limit.value != 0
    ensures UploadExceeds(a, size) == CopyExceeds(a, size) == UpdateExceeds(a, 0, size)
    ensures UploadExceeds(a, size) <==> a.used + size > a.limit.value
  {
  }

  /**
   * With a NULL limit the three handlers part ways: upload never refuses,
   * copy refuses anything that leaves the account non-empty, and update
   * measures against one gibibyte.
   */
  lemma NullLimitDiverges(a: Account, size: nat)
    requires a.limit.None?
    ensures !UploadExceeds(a, size)
    ensures CopyExceeds(a, size) <==> a.used + size > 0
    ensures UpdateExceeds(a, 0, size) <==> a.used + size > DefaultLimit
  {
  }

  // ---------------------------------------------------------------------
  // Charges and refunds
  // ---------------------------------------------------------------------

  /** The account row `u` has `used` as its `used_storage` and `limit` as its `storage_limit`. */
  predicate Holds(accounts: seq<Account>, u: string, used: int, limit: Option<int>)
  {
    var b := AccountOf(accounts, u);
    b.Some? && b.value.used == used && b.value.limit == limit
  }

  /** A successful upload adds exactly the file's size to the caller's `used_storage`, within a set limit. */
  lemma UploadCharges(d: Drive, userId: string, req: UploadRequest, drawnId: string, stored: bool,
                      r: Result<DriveFile>, d': Drive, a: Account)
    requires Uploaded(d, userId, req, drawnId, stored, r, d')
    requires AccountOf(d.accounts, userId) == Some(a)
    requires r.Ok?
    ensures Holds(d'.accounts, userId, a.used + r.value.size, a.limit)
    ensures a.limit.Some? ==> a.used + r.value.size <= a.limit.value
    ensures r.value in d'.files && r.value.ownerId == userId && FileById(d.files, r.value.id).None?
  {
    assert d'.accounts == AddUsed(d.accounts, userId, r.value.size);
    AccountAfterAdd(d.accounts, userId, r.value.size, a);
  }

  /** New content sets `used_storage` to `used - old + new`, never above the effective limit. */
  lemma UpdateRecharges(d: Drive, userId: string, id: string, content: Option<nat>, fileName: Option<string>,
                        parentId: Option<string>, written: bool, r: Result<DriveFile>, d': Drive, a: Account)
    requires FileUpdated(d, userId, id, content, fileName, parentId, written, r, d')
    requires AccountOf(d.accounts, userId) == Some(a)
    requires r.Ok? && content.Some?
    ensures var f := FileOf(d.files, id, userId).value;
            Holds(d'.accounts, userId, a.used - f.size + content.value, a.limit)
            && a.used - f.size + content.value <= UpdateLimit(a.limit)
    ensures r.value.size == content.value
  {
    var f := FileOf(d.files, id, userId).value;
    var v := NewUsage(a, f.size, content.value);
    assert d'.accounts == SetUsed(d.accounts, userId, v);
    AccountAfterSet(d.accounts, userId, v, a);
  }

  /** A delete subtracts exactly the deleted file's size. */
  lemma DeleteRefunds(d: Drive, userId: string, id: string, unlinked: bool, r: Result<nat>, d': Drive, a: Account)
    requires FileDeleted(d, userId, id, unlinked, r, d')
    requires AccountOf(d.accounts, userId) == Some(a)
    requires r.Ok?
    ensures r.value == FileOf(d.files, id, userId).value.size
    ensures Holds(d'.accounts, userId, a.used - r.value, a.limit)
  {
    assert d'.accounts == AddUsed(d.accounts, userId, Refund(r.value));
    AccountAfterAdd(d.accounts, userId, Refund(r.value), a);
  }

  /** A permanent delete subtracts exactly the deleted file's size. */
  lemma PermanentDeleteRefunds(d: Drive, userId: string, id: string, removed: bool, r: Result<nat>, d': Drive, a: Account)
    requires PermanentlyDeleted(d, userId, id, removed, r, d')
    requires AccountOf(d.accounts, userId) == Some(a)
    requires r.Ok?
    ensures r.value == FileOf(d.files, id, userId).value.size
    ensures Holds(d'.accounts, userId, a.used - r.value, a.limit)
  {
    assert d'.accounts == AddUsed(d.accounts, userId, Refund(r.value));
    AccountAfterAdd(d.accounts, userId, Refund(r.value), a);
  }

  /** A copy adds exactly the original's size, within the limit as `Number` reads it. */
  lemma CopyCharges(d: Drive, userId: string, id: string, newId: string, copied: bool,
                    r: Result<DriveFile>, d': Drive, a: Account)
    requires FileCopied(d, userId, id, newId, copied, r, d')
    requires AccountOf(d.accounts, userId) == Some(a)
    requires r.Ok?
    ensures var f := FileOf(d.files, id, userId).value;
            r.value.size == f.size && r.value.parentId == f.parentId && r.value.id == newId
            && Holds(d'.accounts, userId, a.used + f.size, a.limit)
            && a.used + f.size <= (if a.limit.None? then 0 else a.limit.value)
  {
    assert d'.accounts == AddUsed(d.accounts, userId, r.value.size);
    AccountAfterAdd(d.accounts, userId, r.value.size, a);
  }

  lemma {:induction false} WithoutAppended(files: seq<DriveFile>, f: DriveFile, owner: Option<string>)
    requires FileById(files, f.id).None?
    requires Hit(f, f.id, owner)
    ensures Without(files + [f], f.id, owner) == files
    decreases |files|
  {
    if files == [] {
      assert files + [f] == [f];
    } else {
      assert (files + [f])[0] == files[0];
      assert (files + [f])[1..] == files[1..] + [f];
      assert FileById(files[1..], f.id).None? by {
        assert forall i :: 0 <= i < |files[1..]| ==> files[1..][i] == files[i + 1];
      }
      WithoutAppended(files[1..], f, owner);
      assert files[0].id != f.id;
    }
  }

  lemma {:induction false} FileOfAppended(files: seq<DriveFile>, f: DriveFile)
    requires FileById(files, f.id).None?
    ensures FileOf(files + [f], f.id, f.ownerId) == Some(f)
    decreases |files|
  {
    if files != [] {
      assert (files + [f])[1..] == files[1..] + [f];
      assert FileById(files[1..], f.id).None? by {
        assert forall i :: 0 <= i < |files[1..]| ==> files[1..][i] == files[i + 1];
      }
      FileOfAppended(files[1..], f);
    }
  }

  lemma AddUsedCancels(accounts: seq<Account>, u: string, n: nat)
    ensures AddUsed(AddUsed(accounts, u, n), u, Refund(n)) == accounts
  {
    var acc := AddUsed(AddUsed(accounts, u, n), u, Refund(n));
    forall i | 0 <= i < |acc| ensures acc[i] == accounts[i] {
    }
  }

  /** Uploading a file and then deleting it restores every table. */
  lemma UploadThenDelete(d: Drive, userId: string, req: UploadRequest, drawnId: string, stored: bool,
                         r: Result<DriveFile>, d': Drive, r': Result<nat>, d'': Drive)
    requires Uploaded(d, userId, req, drawnId, stored, r, d')
    requires r.Ok?
    requires FileDeleted(d', userId, r.value.id, true, r', d'')
    ensures r' == Ok(r.value.size)
    ensures d'' == d
  {
    var f := r.value;
    assert f.ownerId == userId && FileById(d.files, f.id).None?;
    assert d' == d.(files := d.files + [f], accounts := AddUsed(d.accounts, userId, f.size));
    FileOfAppended(d.files, f);
    assert FileOf(d'.files, f.id, userId) == Some(f);
    WithoutAppended(d.files, f, Some(userId));
    AddUsedCancels(d.accounts, userId, f.size);
    assert d'' == d'.(files := Without(d'.files, f.id, Some(userId)), accounts := AddUsed(d'.accounts, userId, Refund(f.size)));
  }

  // ---------------------------------------------------------------------
  // Copy names
  // ---------------------------------------------------------------------

  /** The name a copy receives is held by none of the owner's files in that location. */
  lemma CopyNameIsFresh(files: seq<DriveFile>, owner: string, parent: Option<string>, name: string)
    ensures forall i :: 0 <= i < |files| && files[i].ownerId == owner && files[i].parentId == parent
                        ==> files[i].name != CopyName(files, owner, parent, name)
  {
    var taken := SiblingNames(files, owner, parent);
    forall i | 0 <= i < |files| && files[i].ownerId == owner && files[i].parentId == parent
      ensures files[i].name != CopyName(files, owner, parent, name)
    {
      assert files[i] in files;
      assert files[i].name in taken;
    }
  }

  /** The copy is `Copy of X` whenever that name is free, and otherwise the first free `Copy (n) of X`. */
  lemma CopyNameIsFirstFree(files: seq<DriveFile>, owner: string, parent: Option<string>, name: string)
    ensures "Copy of " + name !in SiblingNames(files, owner, parent) ==> CopyName(files, owner, parent, name) == "Copy of " + name
    ensures exists n: nat :: CopyName(files, owner, parent, name) == CopyCandidate(name, n)
                             && forall k :: 0 <= k < n ==> CopyCandidate(name, k) in SiblingNames(files, owner, parent)
  {
    var n := FirstFreeIndex(SiblingNames(files, owner, parent), name, 0);
    assert CopyName(files, owner, parent, name) == CopyCandidate(name, n);
  }

  lemma {:induction false} NoPrefixNoMatches(files: seq<DriveFile>, owner: string, parent: Option<string>, name: string)
    requires Plain(name)
    requires forall i :: 0 <= i < |files| && files[i].ownerId == owner && files[i].parentId == parent
                         ==> !("Copy of " + name <= files[i].name)
    ensures CopyMatches(files, owner, parent, name) == 0
    decreases |files|
  {
    if files != [] {
      assert Plain("Copy of " + name) by {
        var x := "Copy of " + name;
        forall i | 0 <= i < |x| ensures x[i] != '%' && x[i] != '_' && x[i] != '\\' {
          if i >= 8 {
            assert x[i] == name[i - 8];
          }
        }
      }
      PlainLikeIsPrefix(files[0].name, "Copy of " + name);
      assert forall i :: 0 <= i < |files[1..]| ==> files[1..][i] == files[i + 1];
      NoPrefixNoMatches(files[1..], owner, parent, name);
    }
  }

  /** When nothing in the folder starts with `Copy of X`, the handler as written and as intended agree. */
  lemma FirstCopyNamesAgree(files: seq<DriveFile>, owner: string, parent: Option<string>, name: string)
    requires Plain(name)
    requires forall i :: 0 <= i < |files| && files[i].ownerId == owner && files[i].parentId == parent
                         ==> !("Copy of " + name <= files[i].name)
    ensures CopyNameAsWritten(files, owner, parent, name) == "Copy of " + name
    ensures CopyName(files, owner, parent, name) == "Copy of " + name
  {
    NoPrefixNoMatches(files, owner, parent, name);
    NoSiblingWithPrefix(files, owner, parent, "Copy of " + name);
    CopyNameIsFirstFree(files, owner, parent, name);
  }

  lemma {:induction false} NoSiblingWithPrefix(files: seq<DriveFile>, owner: string, parent: Option<string>, x: string)
    requires forall i :: 0 <= i < |files| && files[i].ownerId == owner && files[i].parentId == parent
                         ==> !(x <= files[i].name)
    ensures x !in SiblingNames(files, owner, parent)
    decreases |files|
  {
    if files != [] {
      assert forall i :: 0 <= i < |files[1..]| ==> files[1..][i] == files[i + 1];
      NoSiblingWithPrefix(files[1..], owner, parent, x);
    }
  }

  function SampleFile(id: string, name: string, parent: Option<string>): DriveFile
  {
    DriveFile(id, name, "file", "text/plain", 1, parent, "u", "iv", "key", false, false, false, None, None, None)
  }

  /** A folder holding `a`, its first copy and its second copy. */
  function ThreeCopies(): seq<DriveFile>
  {
    [SampleFile("1", "a", Some("d")), SampleFile("2", "Copy of a", Some("d")), SampleFile("3", "Copy (1) of a", Some("d"))]
  }

  /** Of the three names only `Copy of a` matches `Copy of a%`. */
  lemma ThreeCopiesMatchOnce()
    ensures CopyMatches(ThreeCopies(), "u", Some("d"), "a") == 1
  {
    var files := ThreeCopies();
    RowMatch(files[0], "a", 0);
    RowMatch(files[1], "a", 1);
    RowMatch(files[2], "a", 0);
    CopyMatchesOfThree(files, "u", Some("d"), "a");
  }

  /** One sample row against the pattern `Copy of a%`. */
  lemma RowMatch(f: DriveFile, name: string, n: nat)
    requires f.ownerId == "u" && f.parentId == Some("d") && name == "a"
    requires f.name in {"a", "Copy of a", "Copy (1) of a"}
    requires n == if f.name == "Copy of a" then 1 else 0
    ensures CopyMatch(f, "u", Some("d"), name) == n
  {
    var x := "Copy of a";
    assert "Copy of " + name + "%" == x + "%";
    PlainLikeIsPrefix(f.name, x);
    if f.name == "Copy (1) of a" {
      assert x[5] != f.name[5];
    }
  }

  /** The count over a three-row table, row by row. */
  lemma CopyMatchesOfThree(files: seq<DriveFile>, owner: string, parent: Option<string>, name: string)
    requires |files| == 3
    ensures CopyMatches(files, owner, parent, name)
            == CopyMatch(files[0], owner, parent, name) + CopyMatch(files[1], owner, parent, name)
               + CopyMatch(files[2], owner, parent, name)
  {
    CopyMatchesStep(files, owner, parent, name);
    CopyMatchesStep(files[1..], owner, parent, name);
    CopyMatchesStep(files[1..][1..], owner, parent, name);
    assert files[1..][0] == files[1] && files[1..][1..][0] == files[2];
    assert files[1..][1..][1..] == [];
  }

  lemma CopyMatchesStep(files: seq<DriveFile>, owner: string, parent: Option<string>, name: string)
    requires files != []
    ensures CopyMatches(files, owner, parent, name)
            == CopyMatch(files[0], owner, parent, name) + CopyMatches(files[1..], owner, parent, name)
  {
  }

  function CopyMatch(f: DriveFile, owner: string, parent: Option<string>, name: string): nat
  {
    if f.ownerId == owner && SqlEq(f.parentId, parent) && Like(f.name, "Copy of " + name + "%") then 1 else 0
  }

  /**
   * As written, a third copy repeats the second copy's name: `Copy (1) of
   * a` does not match `Copy of a%`, so the count stays at one.
   */
  lemma AsWrittenCopyNameRepeats()
    ensures CopyNameAsWritten(ThreeCopies(), "u", Some("d"), "a") == ThreeCopies()[2].name
    ensures CopyName(ThreeCopies(), "u", Some("d"), "a") != ThreeCopies()[2].name
  {
    ThreeCopiesMatchOnce();
    assert Decimal(1) == "1";
    CopyNameIsFresh(ThreeCopies(), "u", Some("d"), "a");
  }

  /** As written, a file at the root always gets `Copy of X`, even when that name is taken there. */
  lemma AsWrittenRootCopyRepeats()
    ensures var files := [SampleFile("1", "a", None), SampleFile("2", "Copy of a", None)];
            CopyNameAsWritten(files, "u", None, "a") == files[1].name
            && CopyName(files, "u", None, "a") != files[1].name
  {
    var files := [SampleFile("1", "a", None), SampleFile("2", "Copy of a", None)];
    assert CopyMatches(files, "u", None, "a") == 0;
    CopyNameIsFresh(files, "u", None, "a");
  }

  // ---------------------------------------------------------------------
  // State flags and rename
  // ---------------------------------------------------------------------

  lemma {:induction false} FileOfAfterUpdate(files: seq<DriveFile>, id: string, owner: string, c: Change)
    requires FileOf(files, id, owner).Some?
    ensures FileOf(Update(files, id, Some(owner), c), id, owner) == Some(Changed(FileOf(files, id, owner).value, c))
    decreases |files|
  {
    if !(files[0].id == id && files[0].ownerId == owner) {
      assert Update(files, id, Some(owner), c)[1..] == Update(files[1..], id, Some(owner), c);
      FileOfAfterUpdate(files[1..], id, owner, c);
    }
  }

  lemma {:induction false} FileByIdAfterUpdate(files: seq<DriveFile>, id: string, c: Change)
    requires FileById(files, id).Some?
    ensures FileById(Update(files, id, None, c), id) == Some(Changed(FileById(files, id).value, c))
    decreases |files|
  {
    if files[0].id != id {
      assert Update(files, id, None, c)[1..] == Update(files[1..], id, None, c);
      FileByIdAfterUpdate(files[1..], id, c);
    }
  }

  /** Each accepted field name selects its flag, and only the three names are accepted. */
  lemma StateFieldNames(s: string)
    ensures forall f :: ParseStateField(FieldName(f)) == Some(f)
    ensures ParseStateField(s).Some? <==> s in ["is_starred", "is_trashed", "is_archived"]
  {
  }

  /**
   * After a state update the caller's file has the flag set exactly when
   * the value lower-cases to `true`, and its timestamp is set exactly when
   * the flag is.
   */
  lemma StateFlagFollowsValue(d: Drive, userId: string, id: string, field: string, value: string, now: Time,
                              r: Result<DriveFile>, d': Drive)
    requires StateUpdated(d, userId, id, field, value, now, r, d')
    requires r.Ok?
    ensures var fl := ParseStateField(field).value;
            Flag(r.value, fl) == (Lower(value) == "true")
            && (Stamp(r.value, fl).Some? <==> Flag(r.value, fl))
            && (Flag(r.value, fl) ==> Stamp(r.value, fl) == Some(now))
            && FileOf(d'.files, id, userId) == Some(r.value)
  {
    var fl := ParseStateField(field).value;
    FileOfAfterUpdate(d.files, id, userId, SetState(fl, Lower(value) == "true", now));
  }

  /** An accepted rename writes the trimmed, valid name into the caller's file. */
  lemma RenameApplies(d: Drive, userId: string, id: string, name: Option<string>, r: Result<string>, d': Drive)
    requires FileRenamed(d, userId, id, name, r, d')
    requires r.Ok?
    ensures r.value == RequestedName(name) && ValidFileName(r.value)
    ensures var f := FileById(d.files, id).value;
            f.ownerId == userId && FileById(d'.files, id) == Some(f.(name := r.value))
  {
    FileByIdAfterUpdate(d.files, id, Rename(r.value));
  }

  /** A file at the root is never refused as a duplicate: `parent_id = NULL` matches nothing. */
  lemma RootRenameNeverConflicts(d: Drive, userId: string, id: string, name: Option<string>, r: Result<string>, d': Drive)
    requires FileRenamed(d, userId, id, name, r, d')
    requires FileById(d.files, id).Some? && FileById(d.files, id).value.parentId.None?
    ensures r != Err(Conflict)
  {
  }

  // ---------------------------------------------------------------------
  // Failed deletions
  // ---------------------------------------------------------------------

  /** As written, a failed disk deletion answers 500 and leaves no mark in `failed_deletions`. */
  lemma AsWrittenFailedDeletionUnmarked(d: Drive, userId: string, id: string, r: Result<nat>, d': Drive)
    requires PermanentlyDeletedAsWritten(d, userId, id, false, r, d')
    requires IsUuid(id, AnyVersion) && FileOf(d.files, id, userId).Some?
    requires id !in d.cleanup
    ensures r == Err(ServerError) && id !in d'.cleanup
  {
  }

  /** As intended, a failed disk deletion keeps the file and counts one more attempt for it. */
  lemma FailedDeletionMarked(d: Drive, userId: string, id: string, r: Result<nat>, d': Drive)
    requires PermanentlyDeleted(d, userId, id, false, r, d')
    requires IsUuid(id, AnyVersion) && FileOf(d.files, id, userId).Some?
    ensures r == Err(ServerError) && d'.files == d.files && d'.accounts == d.accounts
    ensures id in d'.cleanup && d'.cleanup[id] == (if id in d.cleanup then d.cleanup[id] + 1 else 1)
  {
  }
}
