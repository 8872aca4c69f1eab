/**
 * Values shared by every controller model: optional values, HTTP failures,
 * and the string predicates the controllers apply to request fields
 * (JavaScript whitespace and trim, ASCII case folding, the UUID and e-mail
 * regular expressions).
 */
module Common {

  datatype Option<T> = None | Some(value: T)

  /** The error statuses the controllers answer with. */
  datatype Failure =
    | BadRequest                     // 400
    | Unauthorized                   // 401
    | Forbidden                      // 403
    | NotFound                       // 404
    | MissingIds(ids: seq<string>)   // 404 that lists the ids it could not find
    | Conflict                       // 409
    | ServerError                    // 500

  datatype Result<T> = Ok(value: T) | Err(failure: Failure)

  /** A request field that JavaScript treats as true: present and not the empty string. */
  predicate Truthy(v: Option<string>)
  {
    v.Some? && v.value != []
  }

  /**
   * A string field of a partial update, where JavaScript tells an absent
   * key (`undefined`) apart from an explicit `null`.
   */
  datatype Field = Undefined | Null | Given(text: string)

  /** Serial primary keys start at 1, so an id is never JavaScript-falsy. */
  type Id = n: int | n >= 1 witness 1

  // ---------------------------------------------------------------------
  // Whitespace and trimming
  // ---------------------------------------------------------------------

  /** The characters JavaScript's `\s` matches and `String.prototype.trim` strips. */
  predicate IsJsSpace(c: char)
  {
    c == ' ' || c == '\t' || c == '\n' || c == '\r' || c == '\U{B}' || c == '\U{C}'
    || c == '\U{A0}' || c == '\U{1680}' || ('\U{2000}' <= c <= '\U{200A}')
    || c == '\U{2028}' || c == '\U{2029}' || c == '\U{202F}' || c == '\U{205F}'
    || c == '\U{3000}' || c == '\U{FEFF}'
  }

  predicate AllSpace(s: string)
  {
    forall k :: 0 <= k < |s| ==> IsJsSpace(s[k])
  }

  function TrimStart(s: string): (r: string)
    ensures |r| <= |s| && r == s[|s| - |r|..]
    ensures r == [] || !IsJsSpace(r[0])
    ensures AllSpace(s[..|s| - |r|])
  {
    if s == [] || !IsJsSpace(s[0]) then s
    else
      var r := TrimStart(s[1..]);
      assert s[1..][..|s| - 1 - |r|] == s[1..|s| - |r|];
      r
  }

  function TrimEnd(s: string): (r: string)
    ensures |r| <= |s| && r == s[..|r|]
    ensures r == [] || !IsJsSpace(r[|r| - 1])
    ensures AllSpace(s[|r|..])
  {
    if s == [] || !IsJsSpace(s[|s| - 1]) then s
    else
      var r := TrimEnd(s[..|s| - 1]);
      assert s[..|s| - 1][|r|..] == s[|r|..|s| - 1];
      r
  }

  /** `s.trim()`: a string trims to nothing exactly when it is all whitespace. */
  function Trim(s: string): (r: string)
    ensures r == [] <==> AllSpace(s)
    ensures r != [] ==> !IsJsSpace(r[0]) && !IsJsSpace(r[|r| - 1])
  {
    var left := TrimStart(s);
    var r := TrimEnd(left);
    if r == [] then
      assert s == s[..|s| - |left|] + left;
      r
    else
      assert r[0] == left[0];
      NotAllSpace(s, |s| - |left|);
      r
  }

  lemma NotAllSpace(s: string, k: int)
    requires 0 <= k < |s| && !IsJsSpace(s[k])
    ensures !AllSpace(s)
  {
  }

  // ---------------------------------------------------------------------
  // Case folding
  // ---------------------------------------------------------------------

  function AsciiLower(c: char): char
  {
    if 'A' <= c <= 'Z' then (c as int + 32) as char else c
  }

  /**
   * `toLowerCase()` restricted to ASCII letters; every comparison the
   * controllers make after lower-casing is against an ASCII word.
   */
  function Lower(s: string): (r: string)
    ensures |r| == |s|
    ensures forall i :: 0 <= i < |s| ==> r[i] == AsciiLower(s[i])
  {
    if s == [] then [] else [AsciiLower(s[0])] + Lower(s[1..])
  }

  lemma LowerTwice(s: string)
    ensures Lower(Lower(s)) == Lower(s)
  {
    assert forall i :: 0 <= i < |s| ==> AsciiLower(AsciiLower(s[i])) == AsciiLower(s[i]);
  }

  /** Equality after folding both sides to lower case. */
  predicate EqualsIgnoringCase(a: string, b: string)
  {
    Lower(a) == Lower(b)
  }

  /** `sub` occurs in `s` at some position. */
  predicate Contains(s: string, sub: string)
  {
    sub <= s || (s != [] && Contains(s[1..], sub))
  }

  // ---------------------------------------------------------------------
  // SQL pattern matching
  // ---------------------------------------------------------------------

  /**
   * `s LIKE p` with `%` matching any run, `_` any one character and `\`
   * escaping the next character. A pattern ending in a lone `\` is an
   * error in PostgreSQL; that case is treated here as a literal backslash.
   */
  predicate Like(s: string, p: string)
    decreases |s| + |p|
  {
    if p == [] then s == []
    else if p[0] == '%' then Like(s, p[1..]) || (s != [] && Like(s[1..], p))
    else if p[0] == '_' then s != [] && Like(s[1..], p[1..])
    else if p[0] == '\\' && |p| >= 2 then s != [] && s[0] == p[1] && Like(s[1..], p[2..])
    else s != [] && s[0] == p[0] && Like(s[1..], p[1..])
  }

  /** No character of `x` is special to LIKE. */
  predicate Plain(x: string)
  {
    forall i :: 0 <= i < |x| ==> x[i] != '%' && x[i] != '_' && x[i] != '\\'
  }

  /** `s ILIKE p`: LIKE after folding both sides to lower case. */
  predicate ILike(s: string, p: string)
  {
    Like(Lower(s), Lower(p))
  }

  lemma {:induction false} LikeAnyTail(s: string)
    ensures Like(s, "%")
    decreases |s|
  {
    if s != [] {
      LikeAnyTail(s[1..]);
    }
  }

  /** For a pattern without wildcards, `LIKE 'x%'` is a prefix test. */
  lemma {:induction false} PlainLikeIsPrefix(s: string, x: string)
    requires Plain(x)
    ensures Like(s, x + "%") <==> x <= s
    decreases |x|
  {
    if x == [] {
      LikeAnyTail(s);
      assert x + "%" == "%";
    } else {
      assert (x + "%")[0] == x[0];
      assert (x + "%")[1..] == x[1..] + "%";
      assert Plain(x[1..]) by {
        forall i | 0 <= i < |x[1..]| ensures x[1..][i] != '%' && x[1..][i] != '_' && x[1..][i] != '\\' {
          assert x[1..][i] == x[i + 1];
        }
      }
      if s != [] {
        PlainLikeIsPrefix(s[1..], x[1..]);
        assert x <= s <==> x[0] == s[0] && x[1..] <= s[1..];
      }
    }
  }


  /** Without wildcards, LIKE is equality. */
  lemma {:induction false} PlainLikeIsEquality(s: string, x: string)
    requires Plain(x)
    ensures Like(s, x) <==> s == x
    decreases |x|
  {
    if x != [] {
      assert Plain(x[1..]) by {
        forall i | 0 <= i < |x[1..]| ensures x[1..][i] != '%' && x[1..][i] != '_' && x[1..][i] != '\\' {
          assert x[1..][i] == x[i + 1];
        }
      }
      if s != [] {
        PlainLikeIsEquality(s[1..], x[1..]);
        assert s == x <==> s[0] == x[0] && s[1..] == x[1..];
      }
    }
  }

  /** Without wildcards, `LIKE '%x%'` is a substring test. */
  lemma {:induction false} PlainLikeIsContains(s: string, x: string)
    requires Plain(x)
    ensures Like(s, "%" + x + "%") <==> Contains(s, x)
    decreases |s|
  {
    var p := "%" + x + "%";
    assert p[0] == '%' && p[1..] == x + "%";
    PlainLikeIsPrefix(s, x);
    if s != [] {
      PlainLikeIsContains(s[1..], x);
    }
  }

  lemma LowerAppend(a: string, b: string)
    ensures Lower(a + b) == Lower(a) + Lower(b)
  {
    assert forall i :: 0 <= i < |a + b| ==> Lower(a + b)[i] == (Lower(a) + Lower(b))[i];
  }

  lemma LowerKeepsPlain(x: string)
    requires Plain(x)
    ensures Plain(Lower(x))
  {
  }

  /** Against a pattern without wildcards, ILIKE is equality ignoring case. */
  lemma PlainILikeIsEqualityIgnoringCase(s: string, x: string)
    requires Plain(x)
    ensures ILike(s, x) <==> EqualsIgnoringCase(s, x)
  {
    LowerKeepsPlain(x);
    PlainLikeIsEquality(Lower(s), Lower(x));
  }

  /** Against a query without wildcards, `ILIKE '%' || q || '%'` is a substring test ignoring case. */
  lemma PlainILikeIsContainsIgnoringCase(s: string, q: string)
    requires Plain(q)
    ensures ILike(s, "%" + q + "%") <==> Contains(Lower(s), Lower(q))
  {
    LowerAppend("%" + q, "%");
    LowerAppend("%", q);
    assert Lower("%") == "%";
    LowerKeepsPlain(q);
    PlainLikeIsContains(Lower(s), Lower(q));
  }

  // ---------------------------------------------------------------------
  // Comma-separated text
  // ---------------------------------------------------------------------

  /** JavaScript `Array.prototype.join(',')`. */
  function Join(xs: seq<string>): string
  {
    if xs == [] then []
    else if |xs| == 1 then xs[0]
    else xs[0] + "," + Join(xs[1..])
  }

  /** Splitting at every comma, as `String.prototype.split(',')` does. */
  function Split(s: string): (r: seq<string>)
    ensures |r| >= 1
    decreases |s|
  {
    if s == [] then [[]]
    else
      var rest := Split(s[1..]);
      if s[0] == ',' then [[]] + rest else [[s[0]] + rest[0]] + rest[1..]
  }

  lemma {:induction false} SplitPlain(a: string)
    requires ',' !in a
    ensures Split(a) == [a]
    decreases |a|
  {
    if a != [] {
      assert ',' !in a[1..] by {
        assert forall i :: 0 <= i < |a[1..]| ==> a[1..][i] == a[i + 1];
      }
      SplitPlain(a[1..]);
      assert [a[0]] + a[1..] == a;
    }
  }

  lemma {:induction false} SplitAfter(a: string, b: string)
    requires ',' !in a
    ensures Split(a + "," + b) == [a] + Split(b)
    decreases |a|
  {
    var s := a + "," + b;
    if a == [] {
      assert s[1..] == b;
    } else {
      assert s[1..] == a[1..] + "," + b;
      assert ',' !in a[1..] by {
        assert forall i :: 0 <= i < |a[1..]| ==> a[1..][i] == a[i + 1];
      }
      SplitAfter(a[1..], b);
      assert [a[0]] + a[1..] == a;
    }
  }

  /** Joined ids that contain no comma split back into the array that was sent. */
  lemma {:induction false} SplitJoin(xs: seq<string>)
    requires |xs| >= 1 && forall i :: 0 <= i < |xs| ==> ',' !in xs[i]
    ensures Split(Join(xs)) == xs
    decreases |xs|
  {
    if |xs| == 1 {
      SplitPlain(xs[0]);
    } else {
      SplitAfter(xs[0], Join(xs[1..]));
      SplitJoin(xs[1..]);
      assert [xs[0]] + xs[1..] == xs;
    }
  }

  /** Splitting at the commas and joining again gives back the text. */
  lemma {:induction false} JoinSplit(s: string)
    ensures Join(Split(s)) == s
    decreases |s|
  {
    if s != [] {
      var rest := Split(s[1..]);
      JoinSplit(s[1..]);
      if s[0] == ',' {
        assert Join([[]] + rest) == [] + "," + Join(rest);
      } else {
        JoinHead([s[0]], rest);
      }
      assert [s[0]] + s[1..] == s;
    }
  }

  lemma AppendRegroups(a: string, b: string, d: string)
    ensures (a + b) + "," + d == a + (b + "," + d)
  {
    assert (a + b) + "," + d == a + b + [','] + d;
  }

  /** Joining with a longer first piece: the extra characters come first. */
  lemma JoinHead(c: string, rest: seq<string>)
    requires |rest| >= 1
    ensures Join([c + rest[0]] + rest[1..]) == c + Join(rest)
  {
    var head, tail := c + rest[0], rest[1..];
    var xs := [head] + tail;
    if tail == [] {
      assert xs == [head];
    } else {
      var j := Join(tail);
      calc {
        Join(xs);
      == { assert |xs| > 1 && xs[0] == head && xs[1..] == tail; }
        head + "," + j;
      == { AppendRegroups(c, rest[0], j); }
        c + (rest[0] + "," + j);
      == { assert |rest| > 1 && rest[1..] == tail; }
        c + Join(rest);
      }
    }
  }

  // ---------------------------------------------------------------------
  // UUID strings
  // ---------------------------------------------------------------------

  predicate IsHexDigit(c: char)
  {
    '0' <= c <= '9' || 'a' <= c <= 'f' || 'A' <= c <= 'F'
  }

  predicate IsDashPosition(i: int)
  {
    i == 8 || i == 13 || i == 18 || i == 23
  }

  /**
   * The case-insensitive pattern
   * `^[0-9a-f]{8}-[0-9a-f]{4}-V[0-9a-f]{3}-[89ab][0-9a-f]{3}-[0-9a-f]{12}$`
   * where `V` ranges over the characters of `versions`.
   */
  predicate IsUuid(s: string, versions: string)
  {
    |s| == 36
    && (forall i | 0 <= i < 36 :: if IsDashPosition(i) then s[i] == '-' else IsHexDigit(s[i]))
    && s[14] in versions
    && s[19] in "89abAB"
  }

  /** Versions 1 to 5, as the drive controller accepts. */
  const AnyVersion := "12345"
  /** Version 4 only, as the thread-restore handler accepts. */
  const VersionFour := "4"

  predicate AllHex(s: string)
  {
    forall i :: 0 <= i < |s| ==> IsHexDigit(s[i])
  }

  function JoinUuid(a: string, b: string, c: string, d: string, e: string): string
  {
    a + "-" + b + "-" + c + "-" + d + "-" + e
  }

  // ---------------------------------------------------------------------
  // E-mail addresses
  // ---------------------------------------------------------------------

  predicate EmailChar(c: char)
  {
    c != '@' && !IsJsSpace(c)
  }

  /**
   * The language of `^[^\s@]+@[^\s@]+\.[^\s@]+$`: one `@` that is not the
   * first character, a `.` after it with at least one character on each
   * side, and no other `@` and no whitespace anywhere.
   */
  ghost predicate MatchesEmailPattern(s: string)
  {
    exists k, j ::
      0 < k && k + 1 < j < |s| - 1 && s[k] == '@' && s[j] == '.'
      && forall i :: 0 <= i < |s| && i != k ==> EmailChar(s[i])
  }

  function IndexOf(s: string, c: char): (r: Option<nat>)
    ensures r.None? <==> c !in s
    ensures r.Some? ==> r.value < |s| && s[r.value] == c && c !in s[..r.value]
  {
    if s == [] then None
    else if s[0] == c then Some(0)
    else
      var r := IndexOf(s[1..], c);
      if r.None? then None
      else
        assert s[..r.value + 1] == [s[0]] + s[1..][..r.value];
        Some(r.value + 1)
  }

  /** The check the user controller runs on an address before blocking or reporting it. */
  predicate IsValidEmail(s: string)
  {
    match IndexOf(s, '@')
    case None => false
    case Some(k) =>
      0 < k
      && (forall i | 0 <= i < |s| && i != k :: EmailChar(s[i]))
      && exists j | k + 1 < j < |s| - 1 :: s[j] == '.'
  }

  // ---------------------------------------------------------------------
  // JavaScript values produced by the handlers' arithmetic
  // ---------------------------------------------------------------------

  /** A JavaScript number or string. */
  datatype JsValue = JsNumber(n: int) | JsString(s: string)

  function DigitChar(d: nat): char
    requires d < 10
  {
    "0123456789"[d]
  }

  /** The decimal text of a natural number, as `String(n)` writes it. */
  function Decimal(n: nat): (r: string)
    ensures |r| >= 1
    ensures forall i :: 0 <= i < |r| ==> '0' <= r[i] <= '9'
  {
    if n < 10 then [DigitChar(n)] else Decimal(n / 10) + [DigitChar(n % 10)]
  }

  function JsToString(v: JsValue): string
  {
    match v
    case JsNumber(n) => if n < 0 then "-" + Decimal(-n) else Decimal(n)
    case JsString(s) => s
  }

  /** The `+` operator: addition of two numbers, concatenation as soon as one side is a string. */
  function JsAdd(a: JsValue, b: JsValue): (r: JsValue)
    ensures a.JsNumber? && b.JsNumber? ==> r == JsNumber(a.n + b.n)
    ensures a.JsString? || b.JsString? ==> r.JsString? && r.s == JsToString(a) + JsToString(b)
  {
    if a.JsNumber? && b.JsNumber? then JsNumber(a.n + b.n)
    else JsString(JsToString(a) + JsToString(b))
  }

  // ---------------------------------------------------------------------
  // Properties of the validators
  // ---------------------------------------------------------------------

  /** The e-mail check accepts exactly the language of its regular expression. */
  lemma EmailCheckMatchesPattern(s: string)
    ensures IsValidEmail(s) <==> MatchesEmailPattern(s)
  {
    if IsValidEmail(s) {
      var k := IndexOf(s, '@').value;
      var j :| k + 1 < j < |s| - 1 && s[j] == '.';
      assert 0 < k && k + 1 < j < |s| - 1 && s[k] == '@' && s[j] == '.';
    }
    if MatchesEmailPattern(s) {
      var k, j :| 0 < k && k + 1 < j < |s| - 1 && s[k] == '@' && s[j] == '.'
                  && forall i :: 0 <= i < |s| && i != k ==> EmailChar(s[i]);
      var first := IndexOf(s, '@');
      assert s[k] in s;
      assert first.Some?;
      assert first.value == k;
      assert s[j] == '.';
    }
  }

  /** Every identifier the version-4 check accepts, the version 1-5 check accepts too. */
  lemma VersionFourIsUuid(s: string)
    requires IsUuid(s, VersionFour)
    ensures IsUuid(s, AnyVersion)
  {
  }

  /** An accepted UUID is its five hexadecimal groups joined by dashes. */
  lemma UuidSplitsIntoGroups(s: string, versions: string)
    requires IsUuid(s, versions)
    ensures s == JoinUuid(s[..8], s[9..13], s[14..18], s[19..23], s[24..])
    ensures AllHex(s[..8]) && AllHex(s[9..13]) && AllHex(s[14..18]) && AllHex(s[19..23]) && AllHex(s[24..])
  {
    var j := JoinUuid(s[..8], s[9..13], s[14..18], s[19..23], s[24..]);
    assert |j| == 36;
    forall i | 0 <= i < 36 ensures j[i] == s[i] {
      assert !IsDashPosition(i) ==> IsHexDigit(s[i]);
    }
    forall i | 0 <= i < 8 ensures IsHexDigit(s[..8][i]) { assert !IsDashPosition(i); }
    forall i | 0 <= i < 4 ensures IsHexDigit(s[9..13][i]) { assert !IsDashPosition(9 + i); }
    forall i | 0 <= i < 4 ensures IsHexDigit(s[14..18][i]) { assert !IsDashPosition(14 + i); }
    forall i | 0 <= i < 4 ensures IsHexDigit(s[19..23][i]) { assert !IsDashPosition(19 + i); }
    forall i | 0 <= i < 12 ensures IsHexDigit(s[24..][i]) { assert !IsDashPosition(24 + i); }
  }

  /** Conversely, five hexadecimal groups of sizes 8-4-4-4-12 with the right version and variant are accepted. */
  lemma GroupsJoinToUuid(a: string, b: string, c: string, d: string, e: string, versions: string)
    requires |a| == 8 && |b| == 4 && |c| == 4 && |d| == 4 && |e| == 12
    requires AllHex(a) && AllHex(b) && AllHex(c) && AllHex(d) && AllHex(e)
    requires c[0] in versions && d[0] in "89abAB"
    ensures IsUuid(JoinUuid(a, b, c, d, e), versions)
  {
    var s := JoinUuid(a, b, c, d, e);
    assert s[14] == c[0] && s[19] == d[0];
    forall i | 0 <= i < 36
      ensures if IsDashPosition(i) then s[i] == '-' else IsHexDigit(s[i])
    {
      if i < 8 { assert s[i] == a[i]; }
      else if 8 < i < 13 { assert s[i] == b[i - 9]; }
      else if 13 < i < 18 { assert s[i] == c[i - 14]; }
      else if 18 < i < 23 { assert s[i] == d[i - 19]; }
      else if 23 < i { assert s[i] == e[i - 24]; }
    }
  }
}
