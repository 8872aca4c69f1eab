/**
 * Properties of the keys controller model: a cached key reads back, the
 * upsert touches only its own pair and is idempotent, and the armour
 * header `isValidPublicKey` looks for contains the marker `cacheKey`
 * looks for.
 */
module KeyLaws {
  import opened Common
  import opened KeyStore

  lemma {:induction false} EntryAfterRekey(cache: seq<CachedKey>, email: string, userId: string, key: string)
    requires Cached(cache, email, userId)
    ensures CachedEntry(Rekey(cache, email, userId, key), email, userId)
            == Some(CachedEntry(cache, email, userId).value.(publicKey := key))
    decreases |cache|
  {
    if !(cache[0].email == email && cache[0].userId == userId) {
      assert Rekey(cache, email, userId, key)[1..] == Rekey(cache[1..], email, userId, key);
      assert Cached(cache[1..], email, userId) by {
        var i :| 0 <= i < |cache| && cache[i].email == email && cache[i].userId == userId;
        assert cache[1..][i - 1] == cache[i];
      }
      EntryAfterRekey(cache[1..], email, userId, key);
    }
  }

  lemma {:induction false} EntryAfterAppend(cache: seq<CachedKey>, x: CachedKey, email: string, userId: string)
    requires !Cached(cache, email, userId)
    ensures CachedEntry(cache + [x], email, userId)
            == if x.email == email && x.userId == userId then Some(x) else None
    decreases |cache|
  {
    if cache == [] {
      assert [] + [x] == [x];
    } else {
      assert (cache + [x])[1..] == cache[1..] + [x];
      assert !Cached(cache[1..], email, userId) by {
        assert forall i :: 0 <= i < |cache[1..]| ==> cache[1..][i] == cache[i + 1];
      }
      EntryAfterAppend(cache[1..], x, email, userId);
    }
  }

  lemma {:induction false} OtherEntryAfterRekey(cache: seq<CachedKey>, email: string, userId: string, key: string,
                                                email': string, userId': string)
    requires email' != email || userId' != userId
    ensures CachedEntry(Rekey(cache, email, userId, key), email', userId') == CachedEntry(cache, email', userId')
    decreases |cache|
  {
    if cache != [] {
      assert Rekey(cache, email, userId, key)[1..] == Rekey(cache[1..], email, userId, key);
      OtherEntryAfterRekey(cache[1..], email, userId, key, email', userId');
    }
  }

  lemma {:induction false} OtherEntryAfterAppend(cache: seq<CachedKey>, x: CachedKey, email': string, userId': string)
    requires x.email != email' || x.userId != userId'
    ensures CachedEntry(cache + [x], email', userId') == CachedEntry(cache, email', userId')
    decreases |cache|
  {
    if cache == [] {
      assert [] + [x] == [x];
    } else {
      assert (cache + [x])[1..] == cache[1..] + [x];
      OtherEntryAfterAppend(cache[1..], x, email', userId');
    }
  }

  /** After an accepted `cacheKey`, `getCachedKey` for the same address returns the key just cached. */
  lemma CacheThenGet(cache: seq<CachedKey>, userId: string, email: string, key: string, cache': seq<CachedKey>)
    requires CacheKeyOutcome(cache, userId, Some(email), Some(key)) == Ok(cache')
    ensures CachedKeyFor(cache', userId, Some(email)) == Ok(key)
  {
    if Cached(cache, email, userId) {
      EntryAfterRekey(cache, email, userId, key);
    } else {
      EntryAfterAppend(cache, CachedKey(userId, email, key), email, userId);
    }
  }

  /** Caching a key changes what `getCachedKey` answers for no other address or user. */
  lemma CacheLeavesOthers(cache: seq<CachedKey>, userId: string, email: string, key: string, cache': seq<CachedKey>,
                          userId': string, email': Option<string>)
    requires CacheKeyOutcome(cache, userId, Some(email), Some(key)) == Ok(cache')
    requires !(email' == Some(email) && userId' == userId)
    ensures CachedKeyFor(cache', userId', email') == CachedKeyFor(cache, userId', email')
  {
    if Truthy(email') {
      if Cached(cache, email, userId) {
        OtherEntryAfterRekey(cache, email, userId, key, email'.value, userId');
      } else {
        OtherEntryAfterAppend(cache, CachedKey(userId, email, key), email'.value, userId');
      }
    }
  }

  /** Caching the same key twice leaves the cache as caching it once. */
  lemma UpsertIdempotent(cache: seq<CachedKey>, email: string, userId: string, key: string)
    ensures Upsert(Upsert(cache, email, userId, key), email, userId, key) == Upsert(cache, email, userId, key)
  {
    var once := Upsert(cache, email, userId, key);
    if Cached(cache, email, userId) {
      var i :| 0 <= i < |cache| && cache[i].email == email && cache[i].userId == userId;
      assert once[i].email == email && once[i].userId == userId;
      var twice := Rekey(once, email, userId, key);
      assert forall j :: 0 <= j < |once| ==> twice[j] == once[j];
    } else {
      assert once[|cache|] == CachedKey(userId, email, key);
      var twice := Rekey(once, email, userId, key);
      assert forall j :: 0 <= j < |cache| ==> once[j] == cache[j];
      assert forall j :: 0 <= j < |once| ==> twice[j] == once[j];
    }
  }

  lemma {:induction false} ContainsFrom(s: string, k: nat, sub: string)
    requires k <= |s| && Contains(s[k..], sub)
    ensures Contains(s, sub)
    decreases k
  {
    if k > 0 {
      assert s[1..][k - 1..] == s[k..];
      ContainsFrom(s[1..], k - 1, sub);
    }
  }

  lemma {:induction false} ContainsTransitive(s: string, mid: string, sub: string)
    requires Contains(s, mid) && Contains(mid, sub)
    ensures Contains(s, sub)
    decreases |s|
  {
    if mid <= s {
      PrefixKeepsContains(mid, s, sub);
    } else {
      ContainsTransitive(s[1..], mid, sub);
    }
  }

  lemma {:induction false} PrefixKeepsContains(p: string, s: string, sub: string)
    requires p <= s && Contains(p, sub)
    ensures Contains(s, sub)
    decreases |p|
  {
    if !(sub <= p) {
      assert p[1..] <= s[1..];
      PrefixKeepsContains(p[1..], s[1..], sub);
    } else {
      assert sub <= s;
    }
  }

  /** A key that carries the full armour header also carries the marker `cacheKey` demands first. */
  lemma ArmorHeaderHasBeginMarker(key: string)
    requires Contains(key, ArmorHeader)
    ensures Contains(key, BeginMarker)
    ensures IsValidPublicKey(key, "openpgp")
  {
    assert Contains(ArmorHeader[5..], BeginMarker) by {
      assert BeginMarker <= ArmorHeader[5..];
    }
    ContainsFrom(ArmorHeader, 5, BeginMarker);
    ContainsTransitive(key, ArmorHeader, BeginMarker);
  }

  /** A string in which the first character of `sub` never occurs does not contain `sub`. */
  lemma {:induction false} MissingFirstCharacter(s: string, sub: string)
    requires sub != [] && sub[0] !in s
    ensures !Contains(s, sub)
    decreases |s|
  {
    if s != [] {
      assert s[0] != sub[0];
      MissingFirstCharacter(s[1..], sub);
    }
  }

  /**
   * The marker check of `cacheKey` is weaker than `isValidPublicKey`: the
   * two bare markers with no armour dashes are cached, yet the validator
   * refuses them as an openpgp key.
   */
  lemma CacheCheckAcceptsUnarmouredKey()
    ensures CacheableKey(BeginMarker + " " + EndMarker)
    ensures !IsValidPublicKey(BeginMarker + " " + EndMarker, "openpgp")
  {
    var key := BeginMarker + " " + EndMarker;
    assert BeginMarker <= key;
    assert key[|BeginMarker| + 1..] == EndMarker;
    assert Contains(key[|BeginMarker| + 1..], EndMarker);
    ContainsFrom(key, |BeginMarker| + 1, EndMarker);
    assert '-' !in key;
    MissingFirstCharacter(key, ArmorHeader);
  }
}
