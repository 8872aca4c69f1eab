/**
 * The `users` table as the mail and profile handlers see it, and the pure
 * parts of the user controller: the whitelist of profile columns, the SET
 * clause built from it, and the merge of stored preferences.
 */
module Accounts {
  import opened Common

  /**
   * The `preferences` JSONB column: absent, a JSON array of objects, or a
   * JSON object. Object members are modelled as string-valued.
   */
  datatype Prefs =
    | NoPrefs
    | PrefsList(items: seq<map<string, string>>)
    | PrefsObject(fields: map<string, string>)

  /**
   * One `users` row. The block and spam lists are PostgreSQL text arrays
   * that may be NULL; the other profile columns are kept by name.
   */
  datatype User = User(
    id: string,
    email: string,
    blockedEmails: Option<seq<string>>,
    spammedEmails: Option<seq<string>>,
    preferences: Prefs,
    profile: map<string, string>)

  /** `SELECT ... FROM users WHERE id = $1`, first row. */
  function UserById(users: seq<User>, id: string): (r: Option<User>)
    ensures r.Some? ==> r.value in users && r.value.id == id
    ensures r.None? <==> forall u :: u in users ==> u.id != id
  {
    if users == [] then None
    else if users[0].id == id then Some(users[0])
    else UserById(users[1..], id)
  }

  /** `SELECT ... FROM users WHERE email = $1`, first row. */
  function UserByEmail(users: seq<User>, email: string): (r: Option<User>)
    ensures r.Some? ==> r.value in users && r.value.email == email
    ensures r.None? <==> forall u :: u in users ==> u.email != email
  {
    if users == [] then None
    else if users[0].email == email then Some(users[0])
    else UserByEmail(users[1..], email)
  }

  /** Replace every row whose id is `id` by `u` (an `UPDATE users ... WHERE id = $n`). */
  function ReplaceUser(users: seq<User>, id: string, u: User): (r: seq<User>)
    ensures |r| == |users|
    ensures forall i :: 0 <= i < |users| ==> r[i] == if users[i].id == id then u else users[i]
  {
    if users == [] then [] else [if users[0].id == id then u else users[0]] + ReplaceUser(users[1..], id, u)
  }

  /** `array_append(COALESCE(list, '{}'), x)`. */
  function AppendToList(list: Option<seq<string>>, x: string): (r: seq<string>)
    ensures x in r
    ensures list.Some? ==> |r| == |list.value| + 1 && r[..|list.value|] == list.value
    ensures list.None? ==> r == [x]
  {
    (if list.Some? then list.value else []) + [x]
  }

  /** `$2 = ANY(list)`: false when the list is NULL. */
  predicate ListHas(list: Option<seq<string>>, x: string)
  {
    list.Some? && x in list.value
  }

  // ---------------------------------------------------------------------
  // Text-array literals
  // ---------------------------------------------------------------------

  /** A character that may appear in an unquoted array element. */
  predicate PlainChar(c: char)
  {
    c !in "{},\"\\" && !IsJsSpace(c)
  }

  /**
   * An element PostgreSQL reads back as itself without quotes: not empty,
   * made of plain characters, and not the word NULL in any case.
   */
  predicate PlainElement(e: string)
  {
    e != [] && Lower(e) != "null" && forall i :: 0 <= i < |e| ==> PlainChar(e[i])
  }

  /** The longest prefix of plain characters, and what follows it. */
  function TakePlain(s: string): (r: (string, string))
    ensures r.0 + r.1 == s
    ensures forall i :: 0 <= i < |r.0| ==> PlainChar(r.0[i])
    ensures r.1 == [] || !PlainChar(r.1[0])
  {
    if s == [] || !PlainChar(s[0]) then ([], s)
    else
      var t := TakePlain(s[1..]);
      assert ([s[0]] + t.0) + t.1 == [s[0]] + (t.0 + t.1);
      ([s[0]] + t.0, t.1)
  }

  /**
   * The body of a double-quoted element up to its closing quote, a
   * backslash taking the next character literally; the element and the
   * text after the quote.
   */
  function ParseQuoted(s: string): (r: Option<(string, string)>)
    ensures r.Some? ==> |r.value.1| < |s|
  {
    if s == [] then None
    else if s[0] == '"' then Some(([], s[1..]))
    else if s[0] == '\\' then
      if |s| < 2 then None
      else match ParseQuoted(s[2..])
        case None => None
        case Some((e, rest)) => Some(([s[1]] + e, rest))
    else match ParseQuoted(s[1..])
      case None => None
      case Some((e, rest)) => Some(([s[0]] + e, rest))
  }

  /** One element, quoted or plain, and the text after it. */
  function ParseElement(s: string): (r: Option<(string, string)>)
    ensures r.Some? ==> |r.value.1| < |s|
  {
    if s != [] && s[0] == '"' then ParseQuoted(s[1..])
    else
      var (e, rest) := TakePlain(s);
      if e == [] || Lower(e) == "null" then None else Some((e, rest))
  }

  /** The elements after the opening brace, up to the closing brace that ends the literal. */
  function ParseItems(s: string): Option<seq<string>>
    decreases |s|
  {
    match ParseElement(s)
    case None => None
    case Some((e, rest)) =>
      if rest == "}" then Some([e])
      else if rest != [] && rest[0] == ',' then
        match ParseItems(rest[1..])
        case None => None
        case Some(xs) => Some([e] + xs)
      else None
  }

  /**
   * PostgreSQL's reading of a `text[]` parameter: `{}`, or elements
   * between braces separated by commas, each plain or double-quoted.
   * `None` is a literal PostgreSQL refuses, which fails the statement.
   */
  function ParseArrayLiteral(s: string): Option<seq<string>>
  {
    if s == "{}" then Some([])
    else if s != [] && s[0] == '{' then ParseItems(s[1..])
    else None
  }

  /** A quote or a backslash is preceded by a backslash inside quotes. */
  function Escape(e: string): string
  {
    if e == [] then []
    else (if e[0] == '"' || e[0] == '\\' then ['\\', e[0]] else [e[0]]) + Escape(e[1..])
  }

  /** The elements after the opening brace, each quoted, then the closing brace. */
  function QuotedItems(xs: seq<string>): string
    requires |xs| >= 1
  {
    "\"" + Escape(xs[0]) + "\"" + (if |xs| == 1 then "}" else "," + QuotedItems(xs[1..]))
  }

  /** The literal the node-postgres driver sends for a JavaScript array of strings: every element quoted. */
  function ArrayLiteral(xs: seq<string>): string
  {
    if xs == [] then "{}" else "{" + QuotedItems(xs)
  }

  lemma {:induction false} QuotedRoundTrip(e: string, rest: string)
    ensures ParseQuoted(Escape(e) + "\"" + rest) == Some((e, rest))
    decreases |e|
  {
    var s := Escape(e) + "\"" + rest;
    if e == [] {
      assert s == "\"" + rest;
    } else {
      QuotedRoundTrip(e[1..], rest);
      if e[0] == '"' || e[0] == '\\' {
        assert s == ['\\', e[0]] + (Escape(e[1..]) + "\"" + rest);
        assert s[2..] == Escape(e[1..]) + "\"" + rest;
      } else {
        assert s == [e[0]] + (Escape(e[1..]) + "\"" + rest);
        assert s[1..] == Escape(e[1..]) + "\"" + rest;
      }
      assert [e[0]] + e[1..] == e;
    }
  }

  lemma {:induction false} QuotedItemsRoundTrip(xs: seq<string>)
    requires |xs| >= 1
    ensures ParseItems(QuotedItems(xs)) == Some(xs)
    decreases |xs|
  {
    var after := if |xs| == 1 then "}" else "," + QuotedItems(xs[1..]);
    var s := QuotedItems(xs);
    assert s == "\"" + (Escape(xs[0]) + "\"" + after);
    assert s[1..] == Escape(xs[0]) + "\"" + after;
    QuotedRoundTrip(xs[0], after);
    assert ParseElement(s) == Some((xs[0], after));
    if |xs| > 1 {
      assert after != "}" && after[0] == ',';
      assert after[1..] == QuotedItems(xs[1..]);
      QuotedItemsRoundTrip(xs[1..]);
      assert [xs[0]] + xs[1..] == xs;
    } else {
      assert xs == [xs[0]];
    }
  }

  /** Every list of strings the driver sends as a literal is read back by PostgreSQL as that list. */
  lemma ArrayLiteralRoundTrip(xs: seq<string>)
    ensures ParseArrayLiteral(ArrayLiteral(xs)) == Some(xs)
  {
    if xs != [] {
      var s := ArrayLiteral(xs);
      assert s[1] == '"';
      assert s[1..] == QuotedItems(xs);
      QuotedItemsRoundTrip(xs);
    }
  }

  lemma {:induction false} TakePlainStops(e: string, rest: string)
    requires forall i :: 0 <= i < |e| ==> PlainChar(e[i])
    requires rest == [] || !PlainChar(rest[0])
    ensures TakePlain(e + rest) == (e, rest)
    decreases |e|
  {
    if e != [] {
      assert (e + rest)[0] == e[0] && (e + rest)[1..] == e[1..] + rest;
      TakePlainStops(e[1..], rest);
      assert [e[0]] + e[1..] == e;
    } else {
      assert e + rest == rest;
    }
  }

  lemma CommaRegroups(a: string, j: string, t: string)
    ensures (a + "," + j) + t == a + ("," + (j + t))
  {
    assert (a + "," + j) + t == a + [','] + j + t;
  }

  lemma JoinThen(xs: seq<string>, t: string)
    requires |xs| >= 1
    ensures Join(xs) + t == xs[0] + (if |xs| == 1 then t else "," + (Join(xs[1..]) + t))
  {
    if |xs| > 1 {
      var j := Join(xs[1..]);
      assert Join(xs) == xs[0] + "," + j;
      CommaRegroups(xs[0], j, t);
    }
  }

  /** A plain element followed by a comma or the closing brace is read as itself. */
  lemma PlainElementRead(e: string, after: string)
    requires PlainElement(e)
    requires after != [] && (after[0] == ',' || after[0] == '}')
    ensures ParseElement(e + after) == Some((e, after))
  {
    assert (e + after)[0] == e[0] && PlainChar(e[0]);
    TakePlainStops(e, after);
  }

  /** An element followed by a comma continues the list with what the rest reads as. */
  lemma ItemsContinue(s: string, e: string, rest: string, xs: seq<string>)
    requires ParseElement(s) == Some((e, rest))
    requires rest != [] && rest[0] == ',' && ParseItems(rest[1..]) == Some(xs)
    ensures ParseItems(s) == Some([e] + xs)
  {
    assert rest != "}";
  }

  /** One more plain element in front of a list that already reads back. */
  lemma PlainItemsStep(xs: seq<string>)
    requires |xs| > 1 && PlainElement(xs[0])
    requires ParseItems(Join(xs[1..]) + "}") == Some(xs[1..])
    ensures ParseItems(Join(xs) + "}") == Some(xs)
  {
    var s := Join(xs) + "}";
    var tail := Join(xs[1..]) + "}";
    var after := "," + tail;
    JoinThen(xs, "}");
    assert s == xs[0] + after;
    PlainElementRead(xs[0], after);
    assert after[1..] == tail;
    ItemsContinue(s, xs[0], after, xs[1..]);
    assert [xs[0]] + xs[1..] == xs;
  }

  lemma {:induction false} PlainItemsRoundTrip(xs: seq<string>)
    requires |xs| >= 1 && forall i :: 0 <= i < |xs| ==> PlainElement(xs[i])
    ensures ParseItems(Join(xs) + "}") == Some(xs)
    decreases |xs|
  {
    if |xs| > 1 {
      assert forall i :: 0 <= i < |xs[1..]| ==> xs[1..][i] == xs[i + 1];
      PlainItemsRoundTrip(xs[1..]);
      PlainItemsStep(xs);
    } else {
      JoinThen(xs, "}");
      assert Join(xs) + "}" == xs[0] + "}";
      PlainElementRead(xs[0], "}");
      assert xs == [xs[0]];
    }
  }

  /** A list whose first element is not empty starts with that element's first character. */
  lemma JoinStartsWithHead(xs: seq<string>)
    requires |xs| >= 1 && xs[0] != []
    ensures Join(xs) != [] && Join(xs)[0] == xs[0][0]
  {
    if |xs| > 1 {
      assert Join(xs) == xs[0] + ("," + Join(xs[1..]));
    }
  }

  /** What follows the opening brace of a braced text. */
  lemma AfterOpeningBrace(j: string)
    ensures ("{" + j + "}")[1..] == j + "}"
  {
    var s := "{" + j + "}";
    forall k | 0 <= k < |j| + 1
      ensures s[1..][k] == (j + "}")[k]
    {
      if k < |j| {
        assert s[k + 1] == ("{" + j)[k + 1] == j[k];
      }
    }
  }

  /** A literal written by hand, `{a,b}` with plain elements, is read as those elements. */
  lemma PlainLiteralRoundTrip(xs: seq<string>)
    requires forall i :: 0 <= i < |xs| ==> PlainElement(xs[i])
    ensures ParseArrayLiteral("{" + Join(xs) + "}") == Some(xs)
  {
    if xs != [] {
      var j := Join(xs);
      var s := "{" + j + "}";
      PlainItemsRoundTrip(xs);
      JoinStartsWithHead(xs);
      AfterOpeningBrace(j);
      assert s[1] == (j + "}")[0] == j[0] && PlainChar(xs[0][0]);
    }
  }

  // ---------------------------------------------------------------------
  // Profile updates
  // ---------------------------------------------------------------------

  /** The columns a profile update may set. */
  const AllowedFields: seq<string> := [
    "username", "recovery_email", "is_active", "is_verified", "is_admin",
    "mailbox_quota", "used_quota", "two_factor_enabled", "failed_login_attempts",
    "last_login", "first_name", "last_name", "mobile", "blocked_emails",
    "spammed_emails", "language", "timezone", "RecoveryEmail"]

  predicate IsUpdatable(key: string)
  {
    key in AllowedFields && key != "preferences"
  }

  /** The keys of a JSON object are distinct. */
  predicate DistinctKeys(updates: seq<(string, string)>)
  {
    forall i, j :: 0 <= i < j < |updates| ==> updates[i].0 != updates[j].0
  }

  /** The filtered updates: the entries whose key may be set, in request order. */
  function Updatable(updates: seq<(string, string)>): (r: seq<(string, string)>)
    ensures forall p :: p in r <==> p in updates && IsUpdatable(p.0)
    ensures |r| <= |updates|
  {
    if updates == [] then []
    else (if IsUpdatable(updates[0].0) then [updates[0]] else []) + Updatable(updates[1..])
  }

  /** One `column = $n` item of a SET clause. */
  datatype Placeholder = Placeholder(column: string, param: nat)

  /** `key = $(index + 1)` for each key, in order. */
  function SetClause(keys: seq<string>): (r: seq<Placeholder>)
    ensures |r| == |keys|
    ensures forall i :: 0 <= i < |keys| ==> r[i] == Placeholder(keys[i], i + 1)
  {
    if keys == [] then [] else SetClause(keys[..|keys| - 1]) + [Placeholder(keys[|keys| - 1], |keys|)]
  }

  function Keys(updates: seq<(string, string)>): (r: seq<string>)
    ensures |r| == |updates| && forall i :: 0 <= i < |updates| ==> r[i] == updates[i].0
  {
    if updates == [] then [] else [updates[0].0] + Keys(updates[1..])
  }

  function Values(updates: seq<(string, string)>): (r: seq<string>)
    ensures |r| == |updates| && forall i :: 0 <= i < |updates| ==> r[i] == updates[i].1
  {
    if updates == [] then [] else [updates[0].1] + Values(updates[1..])
  }

  /** The two columns that hold text arrays; every other column is kept as text in `profile`. */
  predicate IsListColumn(key: string)
  {
    key == "blocked_emails" || key == "spammed_emails"
  }

  /** Every array value of the update is a literal PostgreSQL accepts. */
  predicate ListsParse(updates: seq<(string, string)>)
  {
    forall i :: 0 <= i < |updates| && IsListColumn(updates[i].0) ==> ParseArrayLiteral(updates[i].1).Some?
  }

  /**
   * The row after writing every entry of `updates`: the array columns take
   * the list their literal denotes, every other column its text.
   */
  function WriteRow(u: User, updates: seq<(string, string)>): (r: User)
    requires ListsParse(updates)
    ensures r.id == u.id && r.email == u.email && r.preferences == u.preferences
    decreases |updates|
  {
    if updates == [] then u
    else
      var (k, v) := updates[0];
      var u' := if k == "blocked_emails" then u.(blockedEmails := ParseArrayLiteral(v))
                else if k == "spammed_emails" then u.(spammedEmails := ParseArrayLiteral(v))
                else u.(profile := u.profile[k := v]);
      assert ListsParse(updates[1..]) by {
        forall i | 0 <= i < |updates[1..]| && IsListColumn(updates[1..][i].0)
          ensures ParseArrayLiteral(updates[1..][i].1).Some?
        {
          assert updates[1..][i] == updates[i + 1];
        }
      }
      WriteRow(u', updates[1..])
  }

  /**
   * Every placeholder `$n` of the SET clause binds the value given for its
   * own column, and the user id is bound to the last parameter, which the
   * WHERE clause names.
   */
  lemma PlaceholdersBindTheirValues(filtered: seq<(string, string)>, userId: string)
    ensures var clause := SetClause(Keys(filtered));
            var params := Values(filtered) + [userId];
            (forall i :: 0 <= i < |clause| ==>
               1 <= clause[i].param <= |filtered| && clause[i].column == filtered[i].0
               && params[clause[i].param - 1] == filtered[i].1)
            && params[|params| - 1] == userId
            && forall i :: 0 <= i < |clause| ==> clause[i].param != |params|
  {
  }

  /**
   * With distinct keys, after the update each written column holds the
   * value the request gave for it (the list its literal denotes, for an
   * array column), and every other column is untouched.
   */
  lemma {:induction false} WriteRowSetsEachKey(u: User, updates: seq<(string, string)>)
    requires DistinctKeys(updates) && ListsParse(updates)
    decreases |updates|
    ensures var r := WriteRow(u, updates);
            (forall i :: 0 <= i < |updates| ==>
               if updates[i].0 == "blocked_emails" then r.blockedEmails == ParseArrayLiteral(updates[i].1)
               else if updates[i].0 == "spammed_emails" then r.spammedEmails == ParseArrayLiteral(updates[i].1)
               else updates[i].0 in r.profile && r.profile[updates[i].0] == updates[i].1)
            && (forall k :: k in u.profile && (forall i :: 0 <= i < |updates| ==> updates[i].0 != k) ==>
                  k in r.profile && r.profile[k] == u.profile[k])
            && ((forall i :: 0 <= i < |updates| ==> updates[i].0 != "blocked_emails") ==> r.blockedEmails == u.blockedEmails)
            && ((forall i :: 0 <= i < |updates| ==> updates[i].0 != "spammed_emails") ==> r.spammedEmails == u.spammedEmails)
  {
    if updates != [] {
      var rest := updates[1..];
      var (k, v) := updates[0];
      var u' := if k == "blocked_emails" then u.(blockedEmails := ParseArrayLiteral(v))
                else if k == "spammed_emails" then u.(spammedEmails := ParseArrayLiteral(v))
                else u.(profile := u.profile[k := v]);
      assert DistinctKeys(rest);
      assert forall i :: 0 <= i < |rest| ==> rest[i] == updates[i + 1];
      assert ListsParse(rest);
      assert WriteRow(u, updates) == WriteRow(u', rest);
      WriteRowSetsEachKey(u', rest);
      assert forall i :: 0 <= i < |rest| ==> rest[i].0 != k by {
        forall i | 0 <= i < |rest| ensures rest[i].0 != k {
          assert rest[i] == updates[i + 1];
        }
      }
    }
  }

  lemma {:induction false} UpdatableKeepsDistinct(updates: seq<(string, string)>)
    requires DistinctKeys(updates)
    ensures DistinctKeys(Updatable(updates))
  {
    if updates != [] {
      var rest := updates[1..];
      assert DistinctKeys(rest);
      UpdatableKeepsDistinct(rest);
      forall p | p in Updatable(rest) ensures p.0 != updates[0].0 {
        var i :| 0 <= i < |rest| && rest[i] == p;
        assert updates[i + 1] == p;
      }
    }
  }

  // ---------------------------------------------------------------------
  // Preferences
  // ---------------------------------------------------------------------

  /**
   * `preferences?.[0] || {}`: the first element of a stored array, and an
   * empty object otherwise (indexing a JSON object by 0 finds nothing).
   */
  function CurrentPrefs(p: Prefs): map<string, string>
  {
    match p
    case PrefsList(items) => if |items| > 0 then items[0] else map[]
    case _ => map[]
  }

  /** `{ ...existing, ...incoming }`: the incoming members override. */
  function MergePrefs(existing: map<string, string>, incoming: map<string, string>): (r: map<string, string>)
    ensures r.Keys == existing.Keys + incoming.Keys
    ensures forall k :: k in incoming ==> r[k] == incoming[k]
    ensures forall k :: k in existing && k !in incoming ==> r[k] == existing[k]
  {
    existing + incoming
  }

  /** What the handler stores as written: the merged object itself. */
  function StoredPrefsAsWritten(p: Prefs, incoming: map<string, string>): (r: Prefs)
    ensures r.PrefsObject? && r.fields == MergePrefs(CurrentPrefs(p), incoming)
    ensures CurrentPrefs(r) == map[]
  {
    PrefsObject(MergePrefs(CurrentPrefs(p), incoming))
  }

  /** What the handler's own comment says it stores: a single-element array. */
  function StoredPrefs(p: Prefs, incoming: map<string, string>): (r: Prefs)
    ensures CurrentPrefs(r) == MergePrefs(CurrentPrefs(p), incoming)
  {
    PrefsList([MergePrefs(CurrentPrefs(p), incoming)])
  }

  /**
   * As written, a second update forgets the first: the stored object is
   * not an array, so reading element 0 of it finds nothing.
   */
  lemma AsWrittenSecondUpdateForgetsFirst()
    ensures var once := StoredPrefsAsWritten(NoPrefs, map["theme" := "dark"]);
            var twice := StoredPrefsAsWritten(once, map["language" := "en"]);
            twice == PrefsObject(map["language" := "en"]) && "theme" !in twice.fields
  {
    var once := StoredPrefsAsWritten(NoPrefs, map["theme" := "dark"]);
    assert CurrentPrefs(once) == map[];
    assert MergePrefs(map[], map["language" := "en"]) == map["language" := "en"];
  }

  /**
   * Stored as a single-element array, successive updates accumulate: the
   * preferences read back are the merge of everything sent, later values
   * winning.
   */
  lemma StoredPrefsAccumulate(p: Prefs, a: map<string, string>, b: map<string, string>)
    ensures CurrentPrefs(StoredPrefs(StoredPrefs(p, a), b)) == CurrentPrefs(p) + a + b
    ensures forall k :: k in a && k !in b ==> CurrentPrefs(StoredPrefs(StoredPrefs(p, a), b))[k] == a[k]
  {
  }
}
