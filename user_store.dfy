/**
 * The user controller's handlers that change tables: sign-up with its six
 * system folders, the block and spam lists, the profile update and the
 * preferences update. They are methods of a class that owns the `users`,
 * `folders` and `mailboxes` tables; a refused request leaves every table as
 * it was.
 */
module UserStore {
  import opened Common
  import opened Accounts
  import opened MailRows
  import opened FolderRules
  import opened MailCompose
  import opened MailStore

  /** The sign-up body; an absent field is `None`. */
  datatype SignUp = SignUp(
    email: string,
    password: Option<string>,
    username: Option<string>,
    recoveryEmail: Option<string>,
    firstName: Option<string>,
    lastName: Option<string>,
    mobile: Option<string>)

  /** A column that is written only when the request gave it a value. */
  function WithColumn(profile: map<string, string>, column: string, v: Option<string>): map<string, string>
  {
    if v.Some? then profile[column := v.value] else profile
  }

  /** The row the sign-up INSERT writes: an active account with no lists and no preferences. */
  function NewUserRow(id: string, req: SignUp): User
  {
    var profile := WithColumn(WithColumn(WithColumn(WithColumn(
                     map["is_active" := "true"], "username", req.username), "recovery_email", req.recoveryEmail),
                     "first_name", req.firstName), "last_name", req.lastName);
    User(id, req.email, None, None, NoPrefs, WithColumn(profile, "mobile", req.mobile))
  }

  /** The unique `username` column already holds this name. */
  predicate UsernameTaken(users: seq<User>, username: Option<string>)
  {
    username.Some? && exists u :: u in users && "username" in u.profile && u.profile["username"] == username.value
  }

  /** `users.id` is the primary key and `users.email` is unique. */
  predicate UniqueUsers(users: seq<User>)
  {
    forall i, j :: 0 <= i < j < |users| ==> users[i].id != users[j].id && users[i].email != users[j].email
  }

  /**
   * `createUser`: a password is needed to hash (without one the handler
   * answers 500), an address or user name already taken is the unique
   * violation answered with 400, and both refusals roll back. Otherwise the
   * user row is inserted and then the six system folders.
   */
  ghost predicate SignedUp(users: seq<User>, folders: seq<Folder>, users': seq<User>, folders': seq<Folder>,
                           req: SignUp, newId: string, r: Result<string>)
  {
    if req.password.None? then r == Err(ServerError) && users' == users && folders' == folders
    else if UserByEmail(users, req.email).Some? || UsernameTaken(users, req.username) then
      r == Err(BadRequest) && users' == users && folders' == folders
    else
      r == Ok(newId) && users' == users + [NewUserRow(newId, req)]
      && folders' == folders + SystemFolders(newId, NextFolderId(folders))
  }

  /** The refusals shared by the block and spam handlers, in the order they are checked. */
  predicate RefusedAddress(caller: Caller, x: string)
  {
    x == [] || caller.email == x || !IsValidEmail(x)
  }

  /**
   * `addUserToBlock`: 400 for a missing, own or malformed address, 404 for
   * an unknown caller, 409 for an address already blocked; otherwise the
   * address is appended to the caller's list, a NULL list counting as
   * empty.
   */
  ghost predicate Blocked(users: seq<User>, users': seq<User>, caller: Caller, x: string, r: Result<seq<string>>)
  {
    if RefusedAddress(caller, x) then r == Err(BadRequest) && users' == users
    else match UserById(users, caller.userId)
      case None => r == Err(NotFound) && users' == users
      case Some(u) =>
        if ListHas(u.blockedEmails, x) then r == Err(Conflict) && users' == users
        else
          var list := AppendToList(u.blockedEmails, x);
          r == Ok(list) && users' == ReplaceUser(users, u.id, u.(blockedEmails := Some(list)))
  }

  /** The answer of a successful spam report: the new list, `rowCount` of the move and the Spam folder. */
  datatype SpamReport = SpamReport(spammed: seq<string>, count: nat, folderId: Id)

  /**
   * `addUserToSpam`: the refusals of the block handler (409 when already
   * listed), then 500 when the caller has no Spam folder, all rolled back.
   * Otherwise the address is appended to the spam list and every message of
   * the caller's from that sender is moved to Spam, both folder columns set.
   */
  ghost predicate MarkedSpam(users: seq<User>, folders: seq<Folder>, before: seq<Message>,
                             users': seq<User>, after: seq<Message>, caller: Caller, x: string,
                             r: Result<SpamReport>)
  {
    if RefusedAddress(caller, x) then r == Err(BadRequest) && users' == users && after == before
    else match UserById(users, caller.userId)
      case None => r == Err(NotFound) && users' == users && after == before
      case Some(u) =>
        if ListHas(u.spammedEmails, x) then r == Err(Conflict) && users' == users && after == before
        else match FirstFolder(folders, caller.userId, "spam")
          case None => r == Err(ServerError) && users' == users && after == before
          case Some(fid) =>
            var list := AppendToList(u.spammedEmails, x);
            var w := SenderOfUser(x, caller.userId);
            r == Ok(SpamReport(list, CountWhere(before, w), fid))
            && users' == ReplaceUser(users, u.id, u.(spammedEmails := Some(list)))
            && after == UpdateWhere(before, w, Relocate(Some("Spam"), Some(fid)))
  }

  /**
   * `updateProfile`: 400 when no whitelisted column is left after
   * filtering; 500 when a `blocked_emails` or `spammed_emails` value is not
   * an array literal PostgreSQL accepts, which fails the statement whoever
   * the caller is; 404 for an unknown caller; otherwise the filtered
   * columns are written and the updated row is answered.
   */
  ghost predicate ProfileUpdated(users: seq<User>, users': seq<User>, userId: string,
                                 updates: seq<(string, string)>, r: Result<User>)
  {
    var filtered := Updatable(updates);
    if filtered == [] then r == Err(BadRequest) && users' == users
    else if !ListsParse(filtered) then r == Err(ServerError) && users' == users
    else match UserById(users, userId)
      case None => r == Err(NotFound) && users' == users
      case Some(u) =>
        var u' := WriteRow(u, filtered);
        r == Ok(u') && users' == ReplaceUser(users, userId, u')
  }

  /**
   * `updatePreferences`: 400 without a payload object, 404 for an unknown
   * caller; otherwise the payload is merged over the stored preferences,
   * which are kept as a single-element array.
   */
  ghost predicate PrefsUpdated(users: seq<User>, users': seq<User>, userId: string,
                               incoming: Option<map<string, string>>, r: Result<map<string, string>>)
  {
    if incoming.None? then r == Err(BadRequest) && users' == users
    else match UserById(users, userId)
      case None => r == Err(NotFound) && users' == users
      case Some(u) =>
        r == Ok(MergePrefs(CurrentPrefs(u.preferences), incoming.value))
        && users' == ReplaceUser(users, userId, u.(preferences := StoredPrefs(u.preferences, incoming.value)))
  }

  /** The `for ... in` loop that keeps the whitelisted keys of `updates`, in order. */
  method FilterUpdates(updates: seq<(string, string)>) returns (filtered: seq<(string, string)>)
    ensures filtered == Updatable(updates)
  {
    filtered := [];
    var i := 0;
    while i < |updates|
      invariant 0 <= i <= |updates|
      invariant filtered == Updatable(updates[..i])
    {
      UpdatableSnoc(updates[..i], updates[i]);
      assert updates[..i + 1] == updates[..i] + [updates[i]];
      if IsUpdatable(updates[i].0) {
        filtered := filtered + [updates[i]];
      }
      i := i + 1;
    }
    assert updates[..i] == updates;
  }

  class UserDb {
    var users: seq<User>
    var folders: seq<Folder>
    var mailboxes: seq<Message>

    ghost predicate Valid()
      reads this
    {
      UniqueUsers(users)
    }

    constructor (users: seq<User>, folders: seq<Folder>, mailboxes: seq<Message>)
      requires UniqueUsers(users)
      ensures Valid()
      ensures this.users == users && this.folders == folders && this.mailboxes == mailboxes
    {
      this.users := users;
      this.folders := folders;
      this.mailboxes := mailboxes;
    }

    /** `createUser`; `newId` is the id the database assigns, one no row carries yet. */
    method CreateUser(req: SignUp, newId: string) returns (r: Result<string>)
      requires Valid()
      requires UserById(users, newId).None?
      modifies this
      ensures Valid() && mailboxes == old(mailboxes)
      ensures SignedUp(old(users), old(folders), users, folders, req, newId, r)
    {
      if req.password.None? {
        return Err(ServerError);
      }
      if UserByEmail(users, req.email).Some? || UsernameTaken(users, req.username) {
        return Err(BadRequest);
      }
      users := users + [NewUserRow(newId, req)];
      folders := folders + SystemFolders(newId, NextFolderId(folders));
      r := Ok(newId);
    }

    /** `addUserToBlock`. */
    method AddUserToBlock(caller: Caller, emailToBlock: string) returns (r: Result<seq<string>>)
      requires Valid()
      modifies this
      ensures Valid() && folders == old(folders) && mailboxes == old(mailboxes)
      ensures Blocked(old(users), users, caller, emailToBlock, r)
    {
      if emailToBlock == [] {
        return Err(BadRequest);
      }
      if caller.email == emailToBlock {
        return Err(BadRequest);
      }
      if !IsValidEmail(emailToBlock) {
        return Err(BadRequest);
      }
      var user := UserById(users, caller.userId);
      if user.None? {
        return Err(NotFound);
      }
      var u := user.value;
      if ListHas(u.blockedEmails, emailToBlock) {
        return Err(Conflict);
      }
      var list := AppendToList(u.blockedEmails, emailToBlock);
      ReplaceUserKeepsKeys(users, u, u.(blockedEmails := Some(list)));
      users := ReplaceUser(users, u.id, u.(blockedEmails := Some(list)));
      r := Ok(list);
    }

    /** `addUserToSpam`. */
    method AddUserToSpam(caller: Caller, emailToSpam: string) returns (r: Result<SpamReport>)
      requires Valid()
      modifies this
      ensures Valid() && folders == old(folders)
      ensures MarkedSpam(old(users), folders, old(mailboxes), users, mailboxes, caller, emailToSpam, r)
    {
      if emailToSpam == [] {
        return Err(BadRequest);
      }
      if caller.email == emailToSpam {
        return Err(BadRequest);
      }
      if !IsValidEmail(emailToSpam) {
        return Err(BadRequest);
      }
      var user := UserById(users, caller.userId);
      if user.None? {
        return Err(NotFound);
      }
      var u := user.value;
      if ListHas(u.spammedEmails, emailToSpam) {
        return Err(Conflict);
      }
      var list := AppendToList(u.spammedEmails, emailToSpam);
      var spam := FirstFolder(folders, caller.userId, "spam");
      if spam.None? {
        return Err(ServerError);
      }
      var w := SenderOfUser(emailToSpam, caller.userId);
      var count := CountWhere(mailboxes, w);
      ReplaceUserKeepsKeys(users, u, u.(spammedEmails := Some(list)));
      users := ReplaceUser(users, u.id, u.(spammedEmails := Some(list)));
      mailboxes := UpdateWhere(mailboxes, w, Relocate(Some("Spam"), Some(spam.value)));
      r := Ok(SpamReport(list, count, spam.value));
    }

    /** `updateProfile`; a JSON object's keys are distinct. */
    method UpdateProfile(caller: Caller, updates: seq<(string, string)>) returns (r: Result<User>)
      requires Valid()
      requires DistinctKeys(updates)
      modifies this
      ensures Valid() && folders == old(folders) && mailboxes == old(mailboxes)
      ensures ProfileUpdated(old(users), users, caller.userId, updates, r)
    {
      var filtered := FilterUpdates(updates);
      if filtered == [] {
        return Err(BadRequest);
      }
      if !ListsParse(filtered) {
        return Err(ServerError);
      }
      var user := UserById(users, caller.userId);
      if user.None? {
        return Err(NotFound);
      }
      var u := user.value;
      var u' := WriteRow(u, filtered);
      ReplaceUserKeepsKeys(users, u, u');
      users := ReplaceUser(users, caller.userId, u');
      r := Ok(u');
    }

    /** `updatePreferences`; `None` is a payload that is not an object. */
    method UpdatePreferences(caller: Caller, incoming: Option<map<string, string>>)
      returns (r: Result<map<string, string>>)
      requires Valid()
      modifies this
      ensures Valid() && folders == old(folders) && mailboxes == old(mailboxes)
      ensures PrefsUpdated(old(users), users, caller.userId, incoming, r)
    {
      if incoming.None? {
        return Err(BadRequest);
      }
      var user := UserById(users, caller.userId);
      if user.None? {
        return Err(NotFound);
      }
      var u := user.value;
      var merged := MergePrefs(CurrentPrefs(u.preferences), incoming.value);
      ReplaceUserKeepsKeys(users, u, u.(preferences := StoredPrefs(u.preferences, incoming.value)));
      users := ReplaceUser(users, caller.userId, u.(preferences := StoredPrefs(u.preferences, incoming.value)));
      r := Ok(merged);
    }
  }

  // ---------------------------------------------------------------------
  // Properties
  // ---------------------------------------------------------------------

  lemma {:induction false} UpdatableSnoc(updates: seq<(string, string)>, p: (string, string))
    ensures Updatable(updates + [p]) == Updatable(updates) + (if IsUpdatable(p.0) then [p] else [])
    decreases |updates|
  {
    if updates != [] {
      assert (updates + [p])[1..] == updates[1..] + [p];
      UpdatableSnoc(updates[1..], p);
    }
  }

  /** Rewriting a user's row in place keeps the key columns, so the table stays keyed. */
  lemma ReplaceUserKeepsKeys(users: seq<User>, u: User, u': User)
    requires UniqueUsers(users) && u in users
    requires u'.id == u.id && u'.email == u.email
    ensures UniqueUsers(ReplaceUser(users, u.id, u'))
    ensures forall i :: 0 <= i < |users| ==>
              ReplaceUser(users, u.id, u')[i].id == users[i].id && ReplaceUser(users, u.id, u')[i].email == users[i].email
  {
    var r := ReplaceUser(users, u.id, u');
    var k :| 0 <= k < |users| && users[k] == u;
    forall i | 0 <= i < |users| ensures r[i].id == users[i].id && r[i].email == users[i].email {
      if users[i].id == u.id {
        assert i == k;
      }
    }
  }

  /** After a row is rewritten, the lookup by its id finds the new row. */
  lemma {:induction false} UserByIdAfterReplace(users: seq<User>, id: string, u': User)
    requires u'.id == id && UserById(users, id).Some?
    ensures UserById(ReplaceUser(users, id, u'), id) == Some(u')
    decreases |users|
  {
    var r := ReplaceUser(users, id, u');
    assert r[0] == if users[0].id == id then u' else users[0];
    if users[0].id != id {
      assert r[1..] == ReplaceUser(users[1..], id, u');
      UserByIdAfterReplace(users[1..], id, u');
    }
  }

  /** Blocking the same address twice: the second request is answered 409 and changes nothing. */
  lemma BlockTwiceConflicts(users: seq<User>, users1: seq<User>, users2: seq<User>, caller: Caller, x: string,
                            r1: Result<seq<string>>, r2: Result<seq<string>>)
    requires Blocked(users, users1, caller, x, r1) && r1.Ok?
    requires Blocked(users1, users2, caller, x, r2)
    ensures r2 == Err(Conflict) && users2 == users1
  {
    var u := UserById(users, caller.userId).value;
    var list := AppendToList(u.blockedEmails, x);
    UserByIdAfterReplace(users, caller.userId, u.(blockedEmails := Some(list)));
  }

  /** A successful block ends with the address on the caller's list and the earlier entries kept in front of it. */
  lemma BlockAppends(users: seq<User>, users1: seq<User>, caller: Caller, x: string, r: Result<seq<string>>)
    requires Blocked(users, users1, caller, x, r) && r.Ok?
    ensures UserById(users, caller.userId).Some?
    ensures var before := UserById(users, caller.userId).value.blockedEmails;
            var after := UserById(users1, caller.userId).value.blockedEmails;
            after.Some? && after.value == r.value && r.value[|r.value| - 1] == x
            && (before.Some? ==> r.value == before.value + [x])
            && (before.None? ==> r.value == [x])
            && x !in (if before.Some? then before.value else [])
  {
    var u := UserById(users, caller.userId).value;
    var list := AppendToList(u.blockedEmails, x);
    UserByIdAfterReplace(users, caller.userId, u.(blockedEmails := Some(list)));
  }

  /** The spam move sets both folder columns of exactly the sender's rows of that user. */
  lemma SenderMoveTouchesOnlySender(before: seq<Message>, x: string, userId: string, fid: Id)
    ensures var after := UpdateWhere(before, SenderOfUser(x, userId), Relocate(Some("Spam"), Some(fid)));
            |after| == |before|
            && (forall i :: 0 <= i < |before| && before[i].userId == userId && before[i].fromEmail == x ==>
                  after[i] == before[i].(folder := Some("Spam"), folderId := Some(fid)))
            && (forall i :: 0 <= i < |before| && !(before[i].userId == userId && before[i].fromEmail == x) ==>
                  after[i] == before[i])
  {
  }

  /**
   * After a spam report every message of the caller's from that sender sits
   * in the Spam folder under both columns, and every other row is as it was.
   */
  lemma SpamReportMovesSendersMail(folders: seq<Folder>, before: seq<Message>, users: seq<User>, users': seq<User>,
                                   after: seq<Message>, caller: Caller, x: string, r: Result<SpamReport>)
    requires MarkedSpam(users, folders, before, users', after, caller, x, r) && r.Ok?
    ensures FirstFolder(folders, caller.userId, "spam") == Some(r.value.folderId)
    ensures |after| == |before|
    ensures forall i :: 0 <= i < |before| && before[i].userId == caller.userId && before[i].fromEmail == x ==>
              after[i] == before[i].(folder := Some("Spam"), folderId := Some(r.value.folderId))
    ensures forall i :: 0 <= i < |before| && !(before[i].userId == caller.userId && before[i].fromEmail == x) ==>
              after[i] == before[i]
    ensures r.value.count == |Selected(before, SenderOfUser(x, caller.userId))|
  {
    assert !RefusedAddress(caller, x);
    var u := UserById(users, caller.userId).value;
    assert !ListHas(u.spammedEmails, x);
    var fid := FirstFolder(folders, caller.userId, "spam").value;
    assert after == UpdateWhere(before, SenderOfUser(x, caller.userId), Relocate(Some("Spam"), Some(fid)));
    SenderMoveTouchesOnlySender(before, x, caller.userId, fid);
  }

  /** A second spam report of the same sender is answered 409 and changes nothing. */
  lemma SpamTwiceConflicts(folders: seq<Folder>, users: seq<User>, users1: seq<User>, users2: seq<User>,
                           rows: seq<Message>, rows1: seq<Message>, rows2: seq<Message>,
                           caller: Caller, x: string, r1: Result<SpamReport>, r2: Result<SpamReport>)
    requires MarkedSpam(users, folders, rows, users1, rows1, caller, x, r1) && r1.Ok?
    requires MarkedSpam(users1, folders, rows1, users2, rows2, caller, x, r2)
    ensures r2 == Err(Conflict) && users2 == users1 && rows2 == rows1
  {
    var u := UserById(users, caller.userId).value;
    var list := AppendToList(u.spammedEmails, x);
    UserByIdAfterReplace(users, caller.userId, u.(spammedEmails := Some(list)));
  }

  /**
   * A profile update writes each whitelisted column of the request and
   * nothing else: `blocked_emails` and `spammed_emails` become the lists
   * their literals denote, the other whitelisted columns their text, and a
   * column outside the whitelist, `preferences` among them, keeps its
   * value, as does a list the request does not name.
   */
  lemma ProfileUpdateWritesOnlyAllowed(u: User, updates: seq<(string, string)>)
    requires DistinctKeys(updates) && ListsParse(Updatable(updates))
    ensures var r := WriteRow(u, Updatable(updates));
            r.id == u.id && r.email == u.email && r.preferences == u.preferences
            && (forall i :: 0 <= i < |updates| && IsUpdatable(updates[i].0) ==>
                  if updates[i].0 == "blocked_emails" then r.blockedEmails == ParseArrayLiteral(updates[i].1)
                  else if updates[i].0 == "spammed_emails" then r.spammedEmails == ParseArrayLiteral(updates[i].1)
                  else updates[i].0 in r.profile && r.profile[updates[i].0] == updates[i].1)
            && (forall k :: k in u.profile && !IsUpdatable(k) ==> k in r.profile && r.profile[k] == u.profile[k])
            && ((forall i :: 0 <= i < |updates| ==> updates[i].0 != "blocked_emails") ==> r.blockedEmails == u.blockedEmails)
            && ((forall i :: 0 <= i < |updates| ==> updates[i].0 != "spammed_emails") ==> r.spammedEmails == u.spammedEmails)
  {
    var f := Updatable(updates);
    UpdatableKeepsDistinct(updates);
    WriteRowSetsEachKey(u, f);
    forall i | 0 <= i < |updates| && IsUpdatable(updates[i].0)
      ensures exists j :: 0 <= j < |f| && f[j] == updates[i]
    {
      assert updates[i] in f;
    }
    forall k | k in u.profile && !IsUpdatable(k)
      ensures forall j :: 0 <= j < |f| ==> f[j].0 != k
    {
      forall j | 0 <= j < |f| ensures f[j].0 != k {
        assert f[j] in f;
      }
    }
    assert forall j :: 0 <= j < |f| ==> f[j] in updates by {
      forall j | 0 <= j < |f| ensures f[j] in updates {
        assert f[j] in f;
      }
    }
  }

  /**
   * The block list a profile update writes is the one the block handler
   * consults: after `updates` sets `blocked_emails` to a literal, blocking
   * an acceptable address conflicts exactly when the literal lists it, so
   * a profile update can also unblock an address.
   */
  lemma ProfileListGovernsBlock(users: seq<User>, users1: seq<User>, users2: seq<User>, caller: Caller,
                                updates: seq<(string, string)>, v: string, x: string,
                                r1: Result<User>, r2: Result<seq<string>>)
    requires DistinctKeys(updates) && ("blocked_emails", v) in updates
    requires ProfileUpdated(users, users1, caller.userId, updates, r1) && r1.Ok?
    requires Blocked(users1, users2, caller, x, r2) && !RefusedAddress(caller, x)
    ensures ParseArrayLiteral(v).Some?
    ensures r2 == Err(Conflict) <==> x in ParseArrayLiteral(v).value
  {
    var f := Updatable(updates);
    assert IsUpdatable("blocked_emails");
    assert ("blocked_emails", v) in f;
    var u := UserById(users, caller.userId).value;
    var u' := WriteRow(u, f);
    var i :| 0 <= i < |updates| && updates[i] == ("blocked_emails", v);
    ProfileUpdateWritesOnlyAllowed(u, updates);
    assert u'.blockedEmails == ParseArrayLiteral(v);
    UserByIdAfterReplace(users, caller.userId, u');
  }

  /**
   * Two successive preference updates accumulate: the caller reads back
   * the stored preferences merged with both payloads, the later winning.
   */
  lemma PreferenceUpdatesAccumulate(users: seq<User>, users1: seq<User>, users2: seq<User>, userId: string,
                                    a: map<string, string>, b: map<string, string>,
                                    r1: Result<map<string, string>>, r2: Result<map<string, string>>)
    requires PrefsUpdated(users, users1, userId, Some(a), r1) && r1.Ok?
    requires PrefsUpdated(users1, users2, userId, Some(b), r2)
    ensures UserById(users, userId).Some? && r2.Ok?
    ensures r2.value == CurrentPrefs(UserById(users, userId).value.preferences) + a + b
    ensures CurrentPrefs(UserById(users2, userId).value.preferences) == r2.value
  {
    var u := UserById(users, userId).value;
    var u1 := u.(preferences := StoredPrefs(u.preferences, a));
    UserByIdAfterReplace(users, userId, u1);
    var u2 := u1.(preferences := StoredPrefs(u1.preferences, b));
    UserByIdAfterReplace(users1, userId, u2);
  }

  // ---------------------------------------------------------------------
  // The folders of a new account
  // ---------------------------------------------------------------------

  lemma {:induction false} FirstFolderPastOthers(a: seq<Folder>, b: seq<Folder>, userId: string, kind: string)
    requires forall i :: 0 <= i < |a| ==> a[i].userId != userId
    ensures FirstFolder(a + b, userId, kind) == FirstFolder(b, userId, kind)
    decreases |a|
  {
    if a != [] {
      assert (a + b)[0] == a[0];
      assert (a + b)[1..] == a[1..] + b;
      assert forall i :: 0 <= i < |a[1..]| ==> a[1..][i] == a[i + 1];
      FirstFolderPastOthers(a[1..], b, userId, kind);
      assert !IsFolderOf(a[0], userId, kind);
      assert FirstFolder(a + b, userId, kind) == FirstFolder((a + b)[1..], userId, kind);
    } else {
      assert a + b == b;
    }
  }

  /** The first row of the type is the first index holding one. */
  lemma {:induction false} FirstFolderAt(s: seq<Folder>, userId: string, kind: string, k: nat)
    requires k < |s| && IsFolderOf(s[k], userId, kind)
    requires forall i :: 0 <= i < k ==> !IsFolderOf(s[i], userId, kind)
    ensures FirstFolder(s, userId, kind) == Some(s[k].folderId)
    decreases k
  {
    if k > 0 {
      assert forall i :: 0 <= i < k - 1 ==> s[1..][i] == s[i + 1];
      FirstFolderAt(s[1..], userId, kind, k - 1);
    }
  }

  /** The system folder of each type is the one numbered for it. */
  lemma SystemFolderOfKind(userId: string, firstId: Id, k: nat)
    requires k < 6
    ensures FirstFolder(SystemFolders(userId, firstId), userId, SystemKinds[k]) == Some(firstId + k)
  {
    var sys := SystemFolders(userId, firstId);
    forall i | 0 <= i < k ensures !IsFolderOf(sys[i], userId, SystemKinds[k]) {
      assert sys[i].kind == SystemKinds[i];
    }
    FirstFolderAt(sys, userId, SystemKinds[k], k);
  }

  lemma SystemFoldersDistinctKinds(userId: string, firstId: Id, kind: string)
    ensures AtMostOneFolderOfKind(SystemFolders(userId, firstId), userId, kind)
  {
    var sys := SystemFolders(userId, firstId);
    forall i, j | 0 <= i < 6 && 0 <= j < 6 && IsFolderOf(sys[i], userId, kind) && IsFolderOf(sys[j], userId, kind)
      ensures i == j
    {
      assert SystemKinds[i] == SystemKinds[j];
    }
  }

  lemma OnePerKindAfterOthers(folders: seq<Folder>, sys: seq<Folder>, userId: string, kind: string)
    requires forall i :: 0 <= i < |folders| ==> folders[i].userId != userId
    requires AtMostOneFolderOfKind(sys, userId, kind)
    ensures AtMostOneFolderOfKind(folders + sys, userId, kind)
    ensures FirstFolder(folders + sys, userId, kind) == LastFolder(folders + sys, userId, kind)
  {
    var all := folders + sys;
    assert forall i :: 0 <= i < |folders| ==> all[i] == folders[i];
    forall i, j | 0 <= i < |all| && 0 <= j < |all| && IsFolderOf(all[i], userId, kind) && IsFolderOf(all[j], userId, kind)
      ensures i == j
    {
      assert all[i] == sys[i - |folders|] && all[j] == sys[j - |folders|];
    }
    FirstAndLastFolderAgree(all, userId, kind);
  }

  lemma FoundAfterOthers(folders: seq<Folder>, sys: seq<Folder>, userId: string, kind: string, id: Id)
    requires forall i :: 0 <= i < |folders| ==> folders[i].userId != userId
    requires AtMostOneFolderOfKind(sys, userId, kind)
    requires FirstFolder(sys, userId, kind) == Some(id)
    ensures FirstFolder(folders + sys, userId, kind) == Some(id)
    ensures LastFolder(folders + sys, userId, kind) == Some(id)
  {
    FirstFolderPastOthers(folders, sys, userId, kind);
    OnePerKindAfterOthers(folders, sys, userId, kind);
  }

  /**
   * A new account's folders are found by every lookup of a system type:
   * appended after the folders of other accounts, the folder of each type
   * is the one numbered for it, and the first-row and last-row lookups of
   * the mail handlers agree on it.
   */
  lemma SignUpFoldersFound(folders: seq<Folder>, sys: seq<Folder>, userId: string, first: Id, k: nat)
    requires forall i :: 0 <= i < |folders| ==> folders[i].userId != userId
    requires k < 6
    requires sys == SystemFolders(userId, first)
    ensures FirstFolder(folders + sys, userId, SystemKinds[k]) == Some(first + k)
    ensures LastFolder(folders + sys, userId, SystemKinds[k]) == Some(first + k)
  {
    SystemFolderOfKind(userId, first, k);
    SystemFoldersDistinctKinds(userId, first, SystemKinds[k]);
    FoundAfterOthers(folders, sys, userId, SystemKinds[k], first + k);
  }

  /**
   * Signing up twice with the same address: the second request is answered
   * 400 and neither table changes.
   */
  lemma SignUpTwiceRefused(users: seq<User>, folders: seq<Folder>, users1: seq<User>, folders1: seq<Folder>,
                           users2: seq<User>, folders2: seq<Folder>, req: SignUp, id1: string, id2: string,
                           r1: Result<string>, r2: Result<string>)
    requires SignedUp(users, folders, users1, folders1, req, id1, r1) && r1.Ok?
    requires SignedUp(users1, folders1, users2, folders2, req, id2, r2)
    ensures r2 == Err(BadRequest) && users2 == users1 && folders2 == folders1
  {
    assert NewUserRow(id1, req) in users1;
  }
}
