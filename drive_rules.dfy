/**
 * The drive controller's pure rules: the rows of the `files` table and the
 * storage columns of `users`, the three storage-quota comparisons the
 * handlers make (each with its own JavaScript coercion of a NULL limit),
 * SQL `LIKE`, the names a copy receives, the rename validator and the
 * per-user total that `used_storage` is kept equal to.
 */
module DriveRules {
  import opened Common

  /** A clock reading, as `NOW()` returns it; the handlers take it as a parameter. */
  type Time = int

  /** One row of `files`; `kind` is the `type` column (`'file'` for uploads). */
  datatype DriveFile = DriveFile(
    id: string,
    name: string,
    kind: string,
    mimeType: string,
    size: nat,
    parentId: Option<string>,
    ownerId: string,
    iv: string,
    encryptedKey: string,
    isStarred: bool,
    isTrashed: bool,
    isArchived: bool,
    starredAt: Option<Time>,
    trashedAt: Option<Time>,
    archivedAt: Option<Time>)

  /** The storage columns of a `users` row; `storage_limit` may be NULL. */
  datatype Account = Account(userId: string, used: int, limit: Option<int>)

  /** A row of `drivefolders`, as the upload handler reads it. */
  datatype DriveFolder = DriveFolder(id: string, userId: string)

  // ---------------------------------------------------------------------
  // Lookups
  // ---------------------------------------------------------------------

  /** `WHERE id = $1 AND owner_id = $2`, first row. */
  function FileOf(files: seq<DriveFile>, id: string, owner: string): (r: Option<DriveFile>)
    ensures r.None? <==> forall i :: 0 <= i < |files| ==> !(files[i].id == id && files[i].ownerId == owner)
    ensures r.Some? ==> r.value in files && r.value.id == id && r.value.ownerId == owner
  {
    if files == [] then None
    else if files[0].id == id && files[0].ownerId == owner then Some(files[0])
    else
      var r := FileOf(files[1..], id, owner);
      assert forall i :: 1 <= i < |files| ==> files[i] == files[1..][i - 1];
      r
  }

  /** `WHERE id = $1` with no owner condition, first row. */
  function FileById(files: seq<DriveFile>, id: string): (r: Option<DriveFile>)
    ensures r.None? <==> forall i :: 0 <= i < |files| ==> files[i].id != id
    ensures r.Some? ==> r.value in files && r.value.id == id
  {
    if files == [] then None
    else if files[0].id == id then Some(files[0])
    else
      var r := FileById(files[1..], id);
      assert forall i :: 1 <= i < |files| ==> files[i] == files[1..][i - 1];
      r
  }

  function AccountOf(accounts: seq<Account>, userId: string): (r: Option<Account>)
    ensures r.None? <==> forall i :: 0 <= i < |accounts| ==> accounts[i].userId != userId
    ensures r.Some? ==> r.value in accounts && r.value.userId == userId
  {
    if accounts == [] then None
    else if accounts[0].userId == userId then Some(accounts[0])
    else
      var r := AccountOf(accounts[1..], userId);
      assert forall i :: 1 <= i < |accounts| ==> accounts[i] == accounts[1..][i - 1];
      r
  }

  predicate HasDriveFolder(folders: seq<DriveFolder>, id: string, userId: string)
  {
    exists i :: 0 <= i < |folders| && folders[i].id == id && folders[i].userId == userId
  }

  /** `files.id` is the primary key. */
  predicate UniqueFileIds(files: seq<DriveFile>)
  {
    forall i, j :: 0 <= i < j < |files| ==> files[i].id != files[j].id
  }

  // ---------------------------------------------------------------------
  // Statements on `files` and `users`
  // ---------------------------------------------------------------------

  /** A row an UPDATE or DELETE keyed by id (and, when given, owner) reaches. */
  predicate Hit(f: DriveFile, id: string, owner: Option<string>)
  {
    f.id == id && (owner.None? || f.ownerId == owner.value)
  }

  /** `DELETE FROM files WHERE id = $1 [AND owner_id = $2]`. */
  function Without(files: seq<DriveFile>, id: string, owner: Option<string>): (r: seq<DriveFile>)
    ensures forall f :: f in r <==> f in files && !Hit(f, id, owner)
  {
    if files == [] then []
    else (if Hit(files[0], id, owner) then [] else [files[0]]) + Without(files[1..], id, owner)
  }

  /** What an UPDATE of `files` writes into a row it reaches. */
  datatype Change =
    | Rename(newName: string)
    | Rewrite(name: Option<string>, parentId: Option<string>, size: nat)
    | SetState(field: StateField, on: bool, now: Time)

  /** The flags `updateFileState` may set, each paired with its timestamp column. */
  datatype StateField = Starred | Trashed | Archived

  /** `SET name = COALESCE($1, name), parent_id = COALESCE($2, parent_id), size = $3` and the state flags. */
  function Changed(f: DriveFile, c: Change): (g: DriveFile)
    ensures g.id == f.id && g.ownerId == f.ownerId
  {
    match c
    case Rename(newName) => f.(name := newName)
    case Rewrite(name, parentId, size) =>
      f.(name := if name.Some? then name.value else f.name,
         parentId := if parentId.Some? then parentId else f.parentId,
         size := size)
    case SetState(field, on, now) =>
      var stamp := if on then Some(now) else None;
      match field
      case Starred => f.(isStarred := on, starredAt := stamp)
      case Trashed => f.(isTrashed := on, trashedAt := stamp)
      case Archived => f.(isArchived := on, archivedAt := stamp)
  }

  /** `UPDATE files SET … WHERE id = $n [AND owner_id = $m]`. */
  function Update(files: seq<DriveFile>, id: string, owner: Option<string>, c: Change): (r: seq<DriveFile>)
    ensures |r| == |files|
    ensures forall i :: 0 <= i < |files| ==> r[i] == if Hit(files[i], id, owner) then Changed(files[i], c) else files[i]
  {
    if files == [] then []
    else [if Hit(files[0], id, owner) then Changed(files[0], c) else files[0]] + Update(files[1..], id, owner, c)
  }

  /** `UPDATE users SET used_storage = used_storage + $1 WHERE id = $2`. */
  function AddUsed(accounts: seq<Account>, userId: string, delta: int): (r: seq<Account>)
    ensures |r| == |accounts|
    ensures forall i :: 0 <= i < |accounts| ==>
              r[i] == if accounts[i].userId == userId then accounts[i].(used := accounts[i].used + delta) else accounts[i]
  {
    if accounts == [] then []
    else [if accounts[0].userId == userId then accounts[0].(used := accounts[0].used + delta) else accounts[0]]
         + AddUsed(accounts[1..], userId, delta)
  }

  /** The change `used_storage = used_storage - $1` makes. */
  function Refund(size: nat): int
  {
    -(size as int)
  }

  /** `UPDATE users SET used_storage = $1 WHERE id = $2`. */
  function SetUsed(accounts: seq<Account>, userId: string, v: int): (r: seq<Account>)
    ensures |r| == |accounts|
    ensures forall i :: 0 <= i < |accounts| ==>
              r[i] == if accounts[i].userId == userId then accounts[i].(used := v) else accounts[i]
  {
    if accounts == [] then []
    else [if accounts[0].userId == userId then accounts[0].(used := v) else accounts[0]]
         + SetUsed(accounts[1..], userId, v)
  }

  // ---------------------------------------------------------------------
  // Storage bookkeeping
  // ---------------------------------------------------------------------

  /** The total size of the files a user owns. */
  function Usage(files: seq<DriveFile>, userId: string): nat
  {
    if files == [] then 0
    else (if files[0].ownerId == userId then files[0].size else 0) + Usage(files[1..], userId)
  }

  /** Every account's `used_storage` equals the total size of its files. */
  ghost predicate Tracks(accounts: seq<Account>, files: seq<DriveFile>)
  {
    forall i :: 0 <= i < |accounts| ==> accounts[i].used == Usage(files, accounts[i].userId)
  }

  /** `1073741824` bytes, the limit `updateFile` falls back to. */
  const DefaultLimit := 1073741824

  /** `parseInt(used_storage) + size > parseInt(storage_limit)`: a NULL limit parses to NaN and never refuses. */
  function UploadExceeds(a: Account, size: nat): (r: bool)
    ensures a.limit.None? ==> !r
    ensures a.limit.Some? ==> (r <==> a.used + size > a.limit.value)
  {
    a.limit.Some? && a.used + size > a.limit.value
  }

  /** `storage_limit || 1073741824`: a NULL or zero limit means one gibibyte. */
  function UpdateLimit(limit: Option<int>): (r: int)
    ensures limit.Some? && limit.value != 0 ==> r == limit.value
    ensures limit.None? || limit.value == 0 ==> r == DefaultLimit
  {
    if limit.None? || limit.value == 0 then DefaultLimit else limit.value
  }

  /** `newUsage = used_storage - existing.size + buffer.length`. */
  function NewUsage(a: Account, oldSize: nat, newSize: nat): int
  {
    a.used - oldSize + newSize
  }

  /** `newUsage > maxLimit`. */
  function UpdateExceeds(a: Account, oldSize: nat, newSize: nat): (r: bool)
    ensures r <==> a.used - oldSize + newSize > (if a.limit.None? || a.limit.value == 0 then DefaultLimit else a.limit.value)
  {
    NewUsage(a, oldSize, newSize) > UpdateLimit(a.limit)
  }

  /** `Number(used) + Number(size) > Number(limit)`: `Number(null)` is 0, so a NULL limit refuses every non-empty copy. */
  function CopyExceeds(a: Account, size: nat): (r: bool)
    ensures a.limit.None? ==> (r <==> a.used + size > 0)
    ensures a.limit.Some? ==> (r <==> a.used + size > a.limit.value)
  {
    a.used + size > (if a.limit.None? then 0 else a.limit.value)
  }

  // ---------------------------------------------------------------------
  // SQL LIKE and copy names
  // ---------------------------------------------------------------------

  /** `parent_id = $2`: SQL equality, never true when either side is NULL. */
  predicate SqlEq(a: Option<string>, b: Option<string>)
  {
    a.Some? && b.Some? && a.value == b.value
  }

  /** The rows `SELECT COUNT(*) … WHERE owner_id = $1 AND parent_id = $2 AND name LIKE 'Copy of X%'` counts. */
  function CopyMatches(files: seq<DriveFile>, owner: string, parent: Option<string>, name: string): (r: nat)
    ensures r <= |files|
    ensures parent.None? ==> r == 0
  {
    if files == [] then 0
    else
      (if files[0].ownerId == owner && SqlEq(files[0].parentId, parent) && Like(files[0].name, "Copy of " + name + "%")
       then 1 else 0)
      + CopyMatches(files[1..], owner, parent, name)
  }

  /** The name the copy handler writes: `Copy of X`, or `Copy (n) of X` when n rows matched. */
  function CopyNameAsWritten(files: seq<DriveFile>, owner: string, parent: Option<string>, name: string): (r: string)
    ensures r == CopyCandidate(name, CopyMatches(files, owner, parent, name))
  {
    var count := CopyMatches(files, owner, parent, name);
    if count > 0 then "Copy (" + Decimal(count) + ") of " + name else "Copy of " + name
  }

  /** The n-th name in the family the copy handler draws from. */
  function CopyCandidate(name: string, n: nat): string
  {
    if n == 0 then "Copy of " + name else "Copy (" + Decimal(n) + ") of " + name
  }

  /** The names of the owner's files in one location, NULL parents counting as the same (root) location. */
  function SiblingNames(files: seq<DriveFile>, owner: string, parent: Option<string>): (r: set<string>)
    ensures forall f :: f in files && f.ownerId == owner && f.parentId == parent ==> f.name in r
  {
    if files == [] then {}
    else (if files[0].ownerId == owner && files[0].parentId == parent then {files[0].name} else {})
         + SiblingNames(files[1..], owner, parent)
  }

  /** The first candidate index, from `n` on, whose name is not taken. */
  function FirstFreeIndex(taken: set<string>, name: string, n: nat): (m: nat)
    ensures m >= n && CopyCandidate(name, m) !in taken
    ensures forall k :: n <= k < m ==> CopyCandidate(name, k) in taken
    decreases |taken|
  {
    var c := CopyCandidate(name, n);
    if c !in taken then n
    else
      var m := FirstFreeIndex(taken - {c}, name, n + 1);
      CandidateInjective(name, n, m);
      m
  }

  /** The name a copy receives: the first of `Copy of X`, `Copy (1) of X`, … that no sibling holds. */
  function CopyName(files: seq<DriveFile>, owner: string, parent: Option<string>, name: string): (r: string)
    ensures r !in SiblingNames(files, owner, parent)
    ensures "Copy of " + name !in SiblingNames(files, owner, parent) ==> r == "Copy of " + name
  {
    CopyCandidate(name, FirstFreeIndex(SiblingNames(files, owner, parent), name, 0))
  }

  // ---------------------------------------------------------------------
  // File names and state fields
  // ---------------------------------------------------------------------

  /** A character of the class `[a-zA-Z0-9_.\-\s]`. */
  predicate IsFileNameChar(c: char)
  {
    'a' <= c <= 'z' || 'A' <= c <= 'Z' || '0' <= c <= '9' || c == '_' || c == '.' || c == '-' || IsJsSpace(c)
  }

  /** `/^[a-zA-Z0-9_.\-\s]+$/`. */
  function ValidFileName(s: string): (r: bool)
    ensures r ==> s != [] && forall i :: 0 <= i < |s| ==> s[i] != '/' && s[i] != '\\' && s[i] != '\0'
  {
    s != [] && forall i :: 0 <= i < |s| ==> IsFileNameChar(s[i])
  }

  function FieldName(f: StateField): string
  {
    match f
    case Starred => "is_starred"
    case Trashed => "is_trashed"
    case Archived => "is_archived"
  }

  /** `validFields.includes(field)`, naming the flag it selects. */
  function ParseStateField(s: string): (r: Option<StateField>)
    ensures r.Some? ==> FieldName(r.value) == s
  {
    if s == "is_starred" then Some(Starred)
    else if s == "is_trashed" then Some(Trashed)
    else if s == "is_archived" then Some(Archived)
    else None
  }

  /** The flag a state field selects, and whether its timestamp is set. */
  function Flag(f: DriveFile, field: StateField): bool
  {
    match field
    case Starred => f.isStarred
    case Trashed => f.isTrashed
    case Archived => f.isArchived
  }

  function Stamp(f: DriveFile, field: StateField): Option<Time>
  {
    match field
    case Starred => f.starredAt
    case Trashed => f.trashedAt
    case Archived => f.archivedAt
  }

  // ---------------------------------------------------------------------
  // Lemmas
  // ---------------------------------------------------------------------

  lemma DigitCharValue(d: nat)
    requires d < 10
    ensures DigitChar(d) as int == '0' as int + d
  {
  }

  lemma DecimalLong(n: nat)
    requires n >= 10
    ensures |Decimal(n)| >= 2
  {
  }

  /** Different numbers have different decimal texts. */
  lemma {:induction false} DecimalInjective(a: nat, b: nat)
    requires Decimal(a) == Decimal(b)
    ensures a == b
  {
    if a < 10 && b < 10 {
      DigitCharValue(a);
      DigitCharValue(b);
      assert Decimal(a)[0] == DigitChar(a) && Decimal(b)[0] == DigitChar(b);
    } else if a < 10 {
      DecimalLong(b);
    } else if b < 10 {
      DecimalLong(a);
    } else {
      var da, db := Decimal(a / 10), Decimal(b / 10);
      assert Decimal(a) == da + [DigitChar(a % 10)];
      assert Decimal(b) == db + [DigitChar(b % 10)];
      assert |da| == |db|;
      assert da == Decimal(a)[..|da|] && db == Decimal(b)[..|db|];
      DecimalInjective(a / 10, b / 10);
      assert Decimal(a)[|da|] == DigitChar(a % 10) && Decimal(b)[|db|] == DigitChar(b % 10);
      DigitCharValue(a % 10);
      DigitCharValue(b % 10);
    }
  }

  /** The text `Copy (d) of x` determines `d` when `d` is all digits. */
  lemma CountedNameSplits(da: string, db: string, x: string)
    requires forall i :: 0 <= i < |da| ==> '0' <= da[i] <= '9'
    requires forall i :: 0 <= i < |db| ==> '0' <= db[i] <= '9'
    requires "Copy (" + da + ") of " + x == "Copy (" + db + ") of " + x
    ensures da == db
  {
    var sa, sb := "Copy (" + da + ") of " + x, "Copy (" + db + ") of " + x;
    assert da == sa[6..6 + |da|];
    assert db == sb[6..6 + |db|];
  }

  /** Different indices give different candidate names. */
  lemma CandidateInjective(name: string, a: nat, b: nat)
    requires a != b
    ensures CopyCandidate(name, a) != CopyCandidate(name, b)
  {
    if a != 0 && b != 0 && CopyCandidate(name, a) == CopyCandidate(name, b) {
      CountedNameSplits(Decimal(a), Decimal(b), name);
      DecimalInjective(a, b);
    }
  }

  lemma {:induction false} UsageAppend(files: seq<DriveFile>, f: DriveFile, u: string)
    ensures Usage(files + [f], u) == Usage(files, u) + (if f.ownerId == u then f.size else 0)
    decreases |files|
  {
    if files == [] {
      assert files + [f] == [f];
    } else {
      assert (files + [f])[1..] == files[1..] + [f];
      UsageAppend(files[1..], f, u);
    }
  }

  lemma WithoutAbsent(files: seq<DriveFile>, id: string, owner: Option<string>)
    requires forall i :: 0 <= i < |files| ==> files[i].id != id
    ensures Without(files, id, owner) == files
  {
    if files != [] {
      WithoutAbsent(files[1..], id, owner);
    }
  }

  lemma UpdateAbsent(files: seq<DriveFile>, id: string, owner: Option<string>, c: Change)
    requires forall i :: 0 <= i < |files| ==> files[i].id != id
    ensures Update(files, id, owner, c) == files
  {
  }

  /** The rows after the first keep distinct ids, none of them the first row's. */
  lemma UniqueTail(files: seq<DriveFile>)
    requires UniqueFileIds(files) && files != []
    ensures UniqueFileIds(files[1..])
    ensures forall i :: 0 <= i < |files| - 1 ==> files[1..][i].id != files[0].id
  {
    var rest := files[1..];
    forall i, j | 0 <= i < j < |rest| ensures rest[i].id != rest[j].id {
      assert rest[i] == files[i + 1] && rest[j] == files[j + 1];
    }
    forall i | 0 <= i < |rest| ensures rest[i].id != files[0].id {
      assert rest[i] == files[i + 1];
    }
  }

  /** Deleting the one row with an id gives back exactly its size, if the user owned it. */
  lemma {:induction false} UsageWithout(files: seq<DriveFile>, id: string, owner: Option<string>, f: DriveFile, u: string)
    requires UniqueFileIds(files)
    requires f in files && Hit(f, id, owner)
    ensures Usage(Without(files, id, owner), u) + (if f.ownerId == u then f.size else 0) == Usage(files, u)
    decreases |files|
  {
    var rest := files[1..];
    UniqueTail(files);
    if files[0] == f {
      WithoutAbsent(rest, id, owner);
      assert Without(files, id, owner) == rest;
    } else {
      assert f in rest;
      UsageWithout(rest, id, owner, f, u);
    }
  }

  /** Rewriting the one row with an id changes the owner's total by the difference in size. */
  lemma {:induction false} UsageUpdate(files: seq<DriveFile>, id: string, owner: Option<string>, c: Change, f: DriveFile, u: string)
    requires UniqueFileIds(files)
    requires f in files && Hit(f, id, owner)
    ensures Usage(Update(files, id, owner, c), u) + (if f.ownerId == u then f.size else 0)
            == Usage(files, u) + (if f.ownerId == u then Changed(f, c).size else 0)
    decreases |files|
  {
    var rest := files[1..];
    assert Update(files, id, owner, c)[1..] == Update(rest, id, owner, c);
    UniqueTail(files);
    if files[0] == f {
      UpdateAbsent(rest, id, owner, c);
    } else {
      assert f in rest;
      UsageUpdate(rest, id, owner, c, f, u);
    }
  }

  /** A change that keeps every size keeps every total. */
  lemma {:induction false} UsageKeptBy(files: seq<DriveFile>, id: string, owner: Option<string>, c: Change, u: string)
    requires !c.Rewrite?
    ensures Usage(Update(files, id, owner, c), u) == Usage(files, u)
    decreases |files|
  {
    if files != [] {
      var xs := Update(files, id, owner, c);
      assert xs[1..] == Update(files[1..], id, owner, c);
      RowSizeKept(files[0], id, owner, c);
      UsageKeptBy(files[1..], id, owner, c, u);
    }
  }

  lemma RowSizeKept(f: DriveFile, id: string, owner: Option<string>, c: Change)
    requires !c.Rewrite?
    ensures var g := if Hit(f, id, owner) then Changed(f, c) else f;
            g.size == f.size && g.ownerId == f.ownerId
  {
  }

  /** A statement that adds `delta` to one user's files and their `used_storage` keeps the books. */
  lemma TracksAfterAdd(accounts: seq<Account>, files: seq<DriveFile>, files': seq<DriveFile>, u: string, delta: int)
    requires Tracks(accounts, files)
    requires Usage(files', u) == Usage(files, u) + delta
    requires forall v :: v != u ==> Usage(files', v) == Usage(files, v)
    ensures Tracks(AddUsed(accounts, u, delta), files')
  {
  }

  /** Writing one user's new total into `used_storage` keeps the books. */
  lemma TracksAfterSet(accounts: seq<Account>, files: seq<DriveFile>, files': seq<DriveFile>, u: string)
    requires Tracks(accounts, files)
    requires forall v :: v != u ==> Usage(files', v) == Usage(files, v)
    ensures Tracks(SetUsed(accounts, u, Usage(files', u)), files')
  {
  }

  lemma {:induction false} AccountAfterAdd(accounts: seq<Account>, u: string, delta: int, a: Account)
    requires AccountOf(accounts, u) == Some(a)
    ensures AccountOf(AddUsed(accounts, u, delta), u) == Some(a.(used := a.used + delta))
  {
    var r := AddUsed(accounts, u, delta);
    assert r == [r[0]] + AddUsed(accounts[1..], u, delta);
    if accounts[0].userId == u {
      assert r[0] == a.(used := a.used + delta);
    } else {
      assert r[0].userId != u;
      assert AccountOf(accounts[1..], u) == Some(a);
      AccountAfterAdd(accounts[1..], u, delta, a);
    }
  }

  lemma {:induction false} AccountAfterSet(accounts: seq<Account>, u: string, v: int, a: Account)
    requires AccountOf(accounts, u) == Some(a)
    ensures AccountOf(SetUsed(accounts, u, v), u) == Some(a.(used := v))
  {
    var r := SetUsed(accounts, u, v);
    assert r == [r[0]] + SetUsed(accounts[1..], u, v);
    if accounts[0].userId == u {
      assert r[0] == a.(used := v);
    } else {
      assert r[0].userId != u;
      assert AccountOf(accounts[1..], u) == Some(a);
      AccountAfterSet(accounts[1..], u, v, a);
    }
  }
}
