/**
 * The keys controller: the key pairs in `user_public_keys`, read back
 * with the private half only for the caller's own address, the public-key
 * format checks, and the per-user cache of other people's public keys in
 * `key_cache`, written by an update-or-insert keyed by address and user.
 */
module KeyStore {
  import opened Common

  /** A row of `user_public_keys`. */
  datatype UserKey = UserKey(userId: string, email: string, publicKey: string, privateKey: string, keyType: string)

  /** A row of `key_cache`. */
  datatype CachedKey = CachedKey(userId: string, email: string, publicKey: string)

  /** The body `getUserKey` answers with; `privateKey` is absent from the other branch's object. */
  datatype KeyView = KeyView(publicKey: string, privateKey: Option<string>, email: string)

  // ---------------------------------------------------------------------
  // getUserKey
  // ---------------------------------------------------------------------

  /** The address `getUserKey` looks up: the `email` query parameter when truthy, else the caller's. */
  function KeyAddress(callerEmail: string, queryEmail: Option<string>): string
  {
    if Truthy(queryEmail) then queryEmail.value else callerEmail
  }

  /** The request is for the caller's own key: no address given, or exactly the caller's address. */
  predicate OwnKey(callerEmail: string, queryEmail: Option<string>)
  {
    !Truthy(queryEmail) || queryEmail.value == callerEmail
  }

  /** `SELECT … FROM user_public_keys WHERE email = $1`, first row. */
  function KeyByEmail(keys: seq<UserKey>, email: string): (r: Option<UserKey>)
    ensures r.None? <==> forall i :: 0 <= i < |keys| ==> keys[i].email != email
    ensures r.Some? ==> r.value in keys && r.value.email == email
  {
    if keys == [] then None
    else if keys[0].email == email then Some(keys[0])
    else
      var r := KeyByEmail(keys[1..], email);
      assert forall i :: 1 <= i < |keys| ==> keys[i] == keys[1..][i - 1];
      r
  }

  /**
   * `getUserKey`, which changes nothing: the first key stored for the
   * address, with its private half exactly when the request is for the
   * caller's own key; 404 when the address has no key.
   */
  function UserKeyFor(keys: seq<UserKey>, callerEmail: string, queryEmail: Option<string>): (r: Result<KeyView>)
    ensures r.Ok? <==> exists i :: 0 <= i < |keys| && keys[i].email == KeyAddress(callerEmail, queryEmail)
    ensures r.Err? ==> r.failure == NotFound
    ensures r.Ok? ==> r.value.email == KeyAddress(callerEmail, queryEmail)
                      && (r.value.privateKey.Some? <==> OwnKey(callerEmail, queryEmail))
    ensures r.Ok? && r.value.privateKey.Some? ==>
              r.value.email == callerEmail
              && exists i :: 0 <= i < |keys| && keys[i].email == callerEmail && keys[i].privateKey == r.value.privateKey.value
  {
    var own := OwnKey(callerEmail, queryEmail);
    match KeyByEmail(keys, KeyAddress(callerEmail, queryEmail))
    case None => Err(NotFound)
    case Some(k) => Ok(KeyView(k.publicKey, if own then Some(k.privateKey) else None, k.email))
  }

  // ---------------------------------------------------------------------
  // Key formats
  // ---------------------------------------------------------------------

  const ArmorHeader: string := "-----BEGIN PGP PUBLIC KEY BLOCK-----"
  const BeginMarker: string := "BEGIN PGP PUBLIC KEY BLOCK"
  const EndMarker: string := "END PGP PUBLIC KEY BLOCK"

  /** `isValidPublicKey`: only the `openpgp` type is checked, for the armour header. */
  function IsValidPublicKey(key: string, keyType: string): (r: bool)
    ensures keyType != "openpgp" ==> r
    ensures keyType == "openpgp" ==> (r <==> Contains(key, ArmorHeader))
  {
    keyType == "openpgp" ==> Contains(key, ArmorHeader)
  }

  /** The format `cacheKey` demands: both markers, dashes not required. */
  predicate CacheableKey(key: string)
  {
    Contains(key, BeginMarker) && Contains(key, EndMarker)
  }

  // ---------------------------------------------------------------------
  // cacheKey and getCachedKey
  // ---------------------------------------------------------------------

  predicate Cached(cache: seq<CachedKey>, email: string, userId: string)
  {
    exists i :: 0 <= i < |cache| && cache[i].email == email && cache[i].userId == userId
  }

  /** `UPDATE key_cache SET public_key = $1 WHERE email = $2 AND user_id = $3`. */
  function Rekey(cache: seq<CachedKey>, email: string, userId: string, key: string): (r: seq<CachedKey>)
    ensures |r| == |cache|
    ensures forall i :: 0 <= i < |cache| ==>
              r[i] == if cache[i].email == email && cache[i].userId == userId then cache[i].(publicKey := key) else cache[i]
  {
    if cache == [] then []
    else [if cache[0].email == email && cache[0].userId == userId then cache[0].(publicKey := key) else cache[0]]
         + Rekey(cache[1..], email, userId, key)
  }

  /** The update-or-insert `cacheKey` performs once the request is accepted. */
  function Upsert(cache: seq<CachedKey>, email: string, userId: string, key: string): seq<CachedKey>
  {
    if Cached(cache, email, userId) then Rekey(cache, email, userId, key)
    else cache + [CachedKey(userId, email, key)]
  }

  /** `cacheKey`: 400 for a missing address or key and for a key without both markers; otherwise the upsert. */
  function CacheKeyOutcome(cache: seq<CachedKey>, userId: string, email: Option<string>, publicKey: Option<string>)
    : Result<seq<CachedKey>>
  {
    if !Truthy(email) || !Truthy(publicKey) then Err(BadRequest)
    else if !CacheableKey(publicKey.value) then Err(BadRequest)
    else Ok(Upsert(cache, email.value, userId, publicKey.value))
  }

  function CachedEntry(cache: seq<CachedKey>, email: string, userId: string): (r: Option<CachedKey>)
    ensures r.None? <==> !Cached(cache, email, userId)
    ensures r.Some? ==> r.value in cache && r.value.email == email && r.value.userId == userId
  {
    if cache == [] then None
    else if cache[0].email == email && cache[0].userId == userId then Some(cache[0])
    else
      var r := CachedEntry(cache[1..], email, userId);
      assert forall i :: 1 <= i < |cache| ==> cache[i] == cache[1..][i - 1];
      r
  }

  /**
   * `getCachedKey`, which changes nothing: 400 without an address, the
   * caller's cached key for it, or 404.
   */
  function CachedKeyFor(cache: seq<CachedKey>, userId: string, email: Option<string>): (r: Result<string>)
    ensures !Truthy(email) ==> r == Err(BadRequest)
    ensures Truthy(email) ==> (r.Ok? <==> Cached(cache, email.value, userId))
    ensures Truthy(email) && r.Err? ==> r.failure == NotFound
    ensures r.Ok? ==> exists i :: 0 <= i < |cache| && cache[i].email == email.value && cache[i].userId == userId
                                   && cache[i].publicKey == r.value
  {
    if !Truthy(email) then Err(BadRequest)
    else
      match CachedEntry(cache, email.value, userId)
      case None => Err(NotFound)
      case Some(e) => Ok(e.publicKey)
  }

  /** At most one cache entry per address and user. */
  predicate OnePerPair(cache: seq<CachedKey>)
  {
    forall i, j :: 0 <= i < j < |cache| ==> cache[i].email != cache[j].email || cache[i].userId != cache[j].userId
  }

  // ---------------------------------------------------------------------
  // The tables as a class
  // ---------------------------------------------------------------------

  class KeyDb {
    var userKeys: seq<UserKey>
    var cache: seq<CachedKey>

    predicate Valid()
      reads this
    {
      OnePerPair(cache)
    }

    constructor (keys: seq<UserKey>, entries: seq<CachedKey>)
      requires OnePerPair(entries)
      ensures Valid() && userKeys == keys && cache == entries
    {
      userKeys, cache := keys, entries;
    }

    /** `cacheKey`: the cache becomes the upsert of the key, or stays as it was when the request is refused. */
    method CacheKey(userId: string, email: Option<string>, publicKey: Option<string>) returns (r: Result<()>)
      requires Valid()
      modifies this
      ensures Valid()
      ensures userKeys == old(userKeys)
      ensures var o := CacheKeyOutcome(old(cache), userId, email, publicKey);
              (o.Ok? ==> r == Ok(()) && cache == o.value) && (o.Err? ==> r == Err(o.failure) && cache == old(cache))
    {
      if !Truthy(email) || !Truthy(publicKey) {
        return Err(BadRequest);
      }
      if !Contains(publicKey.value, BeginMarker) || !Contains(publicKey.value, EndMarker) {
        return Err(BadRequest);
      }
      UpsertKeepsOnePerPair(cache, email.value, userId, publicKey.value);
      if Cached(cache, email.value, userId) {
        cache := Rekey(cache, email.value, userId, publicKey.value);
      } else {
        cache := cache + [CachedKey(userId, email.value, publicKey.value)];
      }
      r := Ok(());
    }
  }

  /** The upsert never creates a second entry for a pair. */
  lemma UpsertKeepsOnePerPair(cache: seq<CachedKey>, email: string, userId: string, key: string)
    requires OnePerPair(cache)
    ensures OnePerPair(Upsert(cache, email, userId, key))
  {
    if !Cached(cache, email, userId) {
      var xs := cache + [CachedKey(userId, email, key)];
      assert forall i :: 0 <= i < |cache| ==> xs[i] == cache[i];
    }
  }
}
