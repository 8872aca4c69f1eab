/**
 * The pure rules of the folder controller: the accepted folder types and
 * colours, the six system folders every new account receives, and the
 * ranking of folder suggestions.
 */
module FolderRules {
  import opened Common
  import opened MailRows

  const ValidTypes: seq<string> := ["inbox", "sent", "drafts", "trash", "spam", "archive", "custom"]

  /** `/^#[0-9A-F]{6}$/i`. */
  predicate IsHexColor(s: string)
  {
    |s| == 7 && s[0] == '#' && forall i | 1 <= i < 7 :: IsHexDigit(s[i])
  }

  /** The body of a create request; an absent field is `None`, and the type may also be an explicit `null`. */
  datatype NewFolder = NewFolder(
    name: string,
    kind: Field,
    parentId: Option<Id>,
    color: Option<string>,
    icon: Option<string>,
    sortOrder: Option<int>,
    syncEnabled: Option<bool>)

  /** The type after the destructuring default, which fills in `'custom'` for an absent type only; `None` for `null`. */
  function KindOf(req: NewFolder): Option<string>
  {
    match req.kind
    case Undefined => Some("custom")
    case Null => None
    case Given(t) => Some(t)
  }

  predicate HasValidKind(req: NewFolder)
  {
    KindOf(req).Some? && KindOf(req).value in ValidTypes
  }

  /**
   * The checks made before the database is consulted: a name, a known
   * type, and a colour that is either empty or `#RRGGBB`.
   */
  function CheckNewFolder(req: NewFolder): (r: Option<Failure>)
    ensures r.None? <==> req.name != [] && HasValidKind(req)
                         && (req.color.Some? && req.color.value != [] ==> IsHexColor(req.color.value))
    ensures r.Some? ==> r.value == BadRequest
  {
    if req.name == [] then Some(BadRequest)
    else if !HasValidKind(req) then Some(BadRequest)
    else if req.color.Some? && req.color.value != [] && !IsHexColor(req.color.value) then Some(BadRequest)
    else None
  }

  /** The row the insert writes, with the request's defaults filled in. */
  function FolderRow(id: Id, userId: string, req: NewFolder): Folder
    requires HasValidKind(req)
  {
    Folder(id, userId, req.name, KindOf(req).value, req.parentId, req.color, req.icon,
           if req.sortOrder.Some? then req.sortOrder.value else 0,
           if req.syncEnabled.Some? then req.syncEnabled.value else true)
  }

  // ---------------------------------------------------------------------
  // The system folders of a new account
  // ---------------------------------------------------------------------

  const SystemKinds: seq<string> := ["inbox", "sent", "drafts", "trash", "spam", "archive"]
  const SystemNames: seq<string> := ["Inbox", "Sent", "Drafts", "Trash", "Spam", "Archive"]

  /** The six rows the sign-up handler inserts, numbered from `firstId`. */
  function SystemFolders(userId: string, firstId: Id): (r: seq<Folder>)
    ensures |r| == 6
    ensures forall i :: 0 <= i < 6 ==>
              r[i] == Folder(firstId + i, userId, SystemNames[i], SystemKinds[i], None, None, None, i + 1, true)
  {
    seq(6, i requires 0 <= i < 6 => Folder(firstId + i, userId, SystemNames[i], SystemKinds[i], None, None, None, i + 1, true))
  }

  /**
   * A new account has exactly one folder of each system type, so every
   * lookup of a system folder, first-row or last-row, finds the same one.
   */
  lemma SystemFoldersOnePerKind(userId: string, firstId: Id, kind: string)
    requires kind in SystemKinds
    ensures AtMostOneFolderOfKind(SystemFolders(userId, firstId), userId, kind)
    ensures FirstFolder(SystemFolders(userId, firstId), userId, kind).Some?
    ensures FirstFolder(SystemFolders(userId, firstId), userId, kind) == LastFolder(SystemFolders(userId, firstId), userId, kind)
  {
    var fs := SystemFolders(userId, firstId);
    var k :| 0 <= k < 6 && SystemKinds[k] == kind;
    assert IsFolderOf(fs[k], userId, kind);
    assert fs[k] in fs;
    forall i, j | 0 <= i < 6 && 0 <= j < 6 && IsFolderOf(fs[i], userId, kind) && IsFolderOf(fs[j], userId, kind)
      ensures i == j
    {
      assert SystemKinds[i] == SystemKinds[j];
    }
    FirstAndLastFolderAgree(fs, userId, kind);
  }

  // ---------------------------------------------------------------------
  // Folder suggestions
  // ---------------------------------------------------------------------

  /** One suggestion row: `folder_id AS id, name, type, parent_id, priority`. */
  datatype Suggestion = Suggestion(id: Id, name: string, kind: string, parentId: Option<Id>, priority: nat)

  /** `CASE WHEN type = 'inbox' THEN 1 WHEN 'sent' THEN 2 WHEN 'drafts' THEN 3 ELSE 4 END`. */
  function Priority(kind: string): (p: nat)
    ensures 1 <= p <= 4
  {
    if kind == "inbox" then 1 else if kind == "sent" then 2 else if kind == "drafts" then 3 else 4
  }

  /** Lexicographic order on code points. */
  predicate LexLe(a: string, b: string)
  {
    a == [] || (b != [] && (a[0] < b[0] || (a[0] == b[0] && LexLe(a[1..], b[1..]))))
  }

  lemma {:induction false} LexLeTotal(a: string, b: string)
    ensures LexLe(a, b) || LexLe(b, a)
  {
    if a != [] && b != [] && a[0] == b[0] {
      LexLeTotal(a[1..], b[1..]);
    }
  }

  lemma {:induction false} LexLeTransitive(a: string, b: string, c: string)
    requires LexLe(a, b) && LexLe(b, c)
    ensures LexLe(a, c)
  {
    if a != [] && b != [] && c != [] && a[0] == b[0] && b[0] == c[0] {
      LexLeTransitive(a[1..], b[1..], c[1..]);
    }
  }

  /** `ORDER BY priority, name`. */
  predicate Before(x: Suggestion, y: Suggestion)
  {
    x.priority < y.priority || (x.priority == y.priority && LexLe(x.name, y.name))
  }

  predicate Ordered(s: seq<Suggestion>)
  {
    forall i, j :: 0 <= i < j < |s| ==> Before(s[i], s[j])
  }

  lemma BeforeTransitive(x: Suggestion, y: Suggestion, z: Suggestion)
    requires Before(x, y) && Before(y, z)
    ensures Before(x, z)
  {
    if x.priority == y.priority && y.priority == z.priority {
      LexLeTransitive(x.name, y.name, z.name);
    }
  }

  function Insert(x: Suggestion, s: seq<Suggestion>): (r: seq<Suggestion>)
    requires Ordered(s)
    ensures Ordered(r)
    ensures multiset(r) == multiset(s) + multiset{x}
    ensures |r| == |s| + 1
  {
    if s == [] then [x]
    else if Before(x, s[0]) then
      forall j | 0 <= j < |s| ensures Before(x, s[j]) {
        if j > 0 { BeforeTransitive(x, s[0], s[j]); }
      }
      ConsOrdered(x, s);
      [x] + s
    else
      LexLeTotal(x.name, s[0].name);
      assert Before(s[0], x);
      var rest := Insert(x, s[1..]);
      assert multiset(s) == multiset{s[0]} + multiset(s[1..]) by {
        assert s == [s[0]] + s[1..];
      }
      forall j | 0 <= j < |rest| ensures Before(s[0], rest[j]) {
        assert rest[j] in multiset(rest);
        assert rest[j] == x || rest[j] in s[1..];
      }
      ConsOrdered(s[0], rest);
      [s[0]] + rest
  }

  lemma ConsOrdered(h: Suggestion, rest: seq<Suggestion>)
    requires Ordered(rest) && forall j :: 0 <= j < |rest| ==> Before(h, rest[j])
    ensures Ordered([h] + rest)
  {
    var xs := [h] + rest;
    forall i, j | 0 <= i < j < |xs| ensures Before(xs[i], xs[j]) {
      assert xs[j] == rest[j - 1];
      if i > 0 {
        assert xs[i] == rest[i - 1];
      }
    }
  }

  /** The rows in `ORDER BY priority, name` order. */
  function Sort(s: seq<Suggestion>): (r: seq<Suggestion>)
    ensures Ordered(r)
    ensures multiset(r) == multiset(s)
  {
    if s == [] then []
    else
      assert s == [s[0]] + s[1..];
      Insert(s[0], Sort(s[1..]))
  }

  /**
   * A folder the query selects: the caller's, name matching `ILIKE '%' ||
   * query || '%'` (so `%` and `_` in the query are wildcards), type not
   * excluded.
   */
  predicate IsCandidate(f: Folder, userId: string, query: string, excludeTypes: seq<string>)
  {
    f.userId == userId && ILike(f.name, "%" + query + "%") && f.kind !in excludeTypes
  }

  /** A query without wildcards selects the folders whose name contains it in any case. */
  lemma PlainQueryIsContainment(f: Folder, userId: string, query: string, excludeTypes: seq<string>)
    requires Plain(query)
    ensures IsCandidate(f, userId, query, excludeTypes)
            <==> f.userId == userId && Contains(Lower(f.name), Lower(query)) && f.kind !in excludeTypes
  {
    PlainILikeIsContainsIgnoringCase(f.name, query);
  }

  /** `_` in a query stands for any one character: `a_c` selects a folder named `abc`. */
  lemma UnderscoreQueryMatchesAnyCharacter(f: Folder, excludeTypes: seq<string>)
    requires f.name == "abc" && f.kind !in excludeTypes
    ensures IsCandidate(f, f.userId, "a_c", excludeTypes)
    ensures !Contains(Lower(f.name), Lower("a_c"))
  {
    assert Lower("abc") == "abc";
    assert Lower("%a_c%") == "%a_c%";
    assert "%" + "a_c" + "%" == "%a_c%";
    assert Like("c", "c%");
    assert Like("bc", "_c%");
    assert Like("abc", "a_c%");
    assert Like("abc", "%a_c%");
    assert Lower("a_c") == "a_c";
    assert !Contains("abc", "a_c") by {
      assert !("a_c" <= "abc");
      assert !("a_c" <= "bc");
      assert !("a_c" <= "c");
      assert !Contains("", "a_c");
    }
  }

  function AsSuggestion(f: Folder): Suggestion
  {
    Suggestion(f.folderId, f.name, f.kind, f.parentId, Priority(f.kind))
  }

  function Candidates(folders: seq<Folder>, userId: string, query: string, excludeTypes: seq<string>): (r: seq<Suggestion>)
    ensures forall x :: x in r <==> exists f :: f in folders && IsCandidate(f, userId, query, excludeTypes) && x == AsSuggestion(f)
  {
    if folders == [] then []
    else
      (if IsCandidate(folders[0], userId, query, excludeTypes) then [AsSuggestion(folders[0])] else [])
      + Candidates(folders[1..], userId, query, excludeTypes)
  }

  const SuggestionLimit := 10

  /**
   * A query-string parameter as the request parser hands it over: absent,
   * given once (a string) or repeated (an array of strings).
   */
  datatype QueryParam = NotGiven | Once(value: string) | Repeated(values: seq<string>)

  /**
   * `excludeTypes.length > 0` holds and then `excludeTypes.map` throws,
   * because a single value is a string and strings have no `map`.
   */
  predicate ExclusionThrows(excludeTypes: QueryParam)
  {
    excludeTypes.Once? && excludeTypes.value != []
  }

  /** The types the `NOT IN` list excludes; an absent or empty parameter excludes nothing. */
  function ExcludedTypes(excludeTypes: QueryParam): (r: seq<string>)
    ensures excludeTypes.Repeated? ==> r == excludeTypes.values
    ensures !excludeTypes.Repeated? ==> r == []
  {
    if excludeTypes.Repeated? then excludeTypes.values else []
  }

  /**
   * The suggestions handler: a query shorter than two characters is
   * refused with 400, and a single non-empty `excludeTypes` value makes
   * the handler throw (500); otherwise at most ten matching folders,
   * inbox, sent and drafts first and then by name, and no other folder
   * ranks before any of them.
   */
  /** The first `SuggestionLimit` candidates in name order, with no exclusion error. */
  function TopSuggestions(folders: seq<Folder>, userId: string, query: string, ex: seq<string>)
    : (r: seq<Suggestion>)
    ensures var all := Sort(Candidates(folders, userId, query, ex));
            |r| <= SuggestionLimit
            && Ordered(r)
            && (forall x :: x in r ==> exists f :: f in folders && IsCandidate(f, userId, query, ex) && x == AsSuggestion(f))
            && |r| == (if |all| < SuggestionLimit then |all| else SuggestionLimit)
            && (forall i, j :: 0 <= i < |r| <= j < |all| ==> Before(r[i], all[j]))
  {
    var all := Sort(Candidates(folders, userId, query, ex));
    var top := if |all| < SuggestionLimit then all else all[..SuggestionLimit];
    forall x | x in top
      ensures exists f :: f in folders && IsCandidate(f, userId, query, ex) && x == AsSuggestion(f)
    {
      var c := Candidates(folders, userId, query, ex);
      assert x in all;
      assert x in multiset(c);
      assert x in c;
    }
    top
  }

  function FolderSuggestions(folders: seq<Folder>, userId: string, query: string, excludeTypes: QueryParam)
    : (r: Result<seq<Suggestion>>)
    ensures r.Err? <==> |query| < 2 || ExclusionThrows(excludeTypes)
    ensures |query| < 2 ==> r == Err(BadRequest)
    ensures |query| >= 2 && ExclusionThrows(excludeTypes) ==> r == Err(ServerError)
    ensures r.Ok? ==>
              var ex := ExcludedTypes(excludeTypes);
              var all := Sort(Candidates(folders, userId, query, ex));
              |r.value| <= SuggestionLimit
              && Ordered(r.value)
              && (forall x :: x in r.value ==> exists f :: f in folders && IsCandidate(f, userId, query, ex) && x == AsSuggestion(f))
              && |r.value| == (if |all| < SuggestionLimit then |all| else SuggestionLimit)
              && (forall i, j :: 0 <= i < |r.value| <= j < |all| ==> Before(r.value[i], all[j]))
  {
    if |query| < 2 then Err(BadRequest)
    else if ExclusionThrows(excludeTypes) then Err(ServerError)
    else Ok(TopSuggestions(folders, userId, query, ExcludedTypes(excludeTypes)))
  }

}
