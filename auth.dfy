/** GitHub App authentication (app/auth.py): the claims of the app assertion (a JWT), the
    process-wide installation-token cache with its renewal margin, the exchange of an
    assertion for an installation token, and the lookup of a repository's installation.
    Time is whole seconds passed in by the caller; the HTTP replies of GitHub are inputs. */
module Auth {
  import opened Common
  import Text

  /** Seconds an app assertion is valid for. */
  const AssertionLifetime: int := 600
  /** A cached token is not used in the last five minutes before it expires. */
  const RenewalMargin: int := 300
  /** The lifetime the cache assumes for a freshly issued installation token. */
  const TokenLifetime: int := 3600

  datatype AuthError =
    | MissingConfiguration      // ValueError: app id or key path empty
    | KeyUnreadable             // the private key file cannot be read
    | SigningFailure            // jwt.encode rejects the key text as an RS256 key
    | HttpStatus(code: int)     // raise_for_status on a non-2xx reply
    | TransportFailure          // the request did not complete
    | MalformedReply            // a 2xx reply without the expected field

  /** The JWT payload `{iat, exp, iss}`. */
  datatype Claims = Claims(iat: int, exp: int, iss: string)

  /** An RS256-signed assertion: the claims and the key that signs them. The signature
      itself is not modelled. */
  datatype Jwt = Jwt(claims: Claims, signingKey: string)

  /** What reading the file at the key path yields: nothing, text that is not an RSA private
      key (so `jwt.encode` raises), or an RSA private key. Parsing the key is not modelled;
      which case the text falls in is an input. */
  datatype KeyFile = Unreadable | NotAnRsaKey(text: string) | RsaKey(text: string)

  /** `create_jwt`. `key` is what reading the file at `privateKeyPath` yields. */
  function CreateJwt(appId: string, privateKeyPath: string, key: KeyFile, now: int)
    : (r: Result<Jwt, AuthError>)
    ensures appId == "" || privateKeyPath == "" ==> r == Err(MissingConfiguration)
    ensures appId != "" && privateKeyPath != "" && key.Unreadable? ==> r == Err(KeyUnreadable)
    ensures appId != "" && privateKeyPath != "" && key.NotAnRsaKey? ==> r == Err(SigningFailure)
    ensures r.Ok? <==> appId != "" && privateKeyPath != "" && key.RsaKey?
    ensures r.Ok? ==>
              && r.value.claims.iat == now
              && r.value.claims.exp == r.value.claims.iat + AssertionLifetime
              && r.value.claims.iss == appId
              && r.value.signingKey == key.text
  {
    if appId == "" || privateKeyPath == "" then Err(MissingConfiguration)
    else
      match key
      case Unreadable => Err(KeyUnreadable)
      case NotAnRsaKey(_) => Err(SigningFailure)
      case RsaKey(text) => Ok(Jwt(Claims(now, now + AssertionLifetime, appId), text))
  }

  /** A cache entry `{token, expires_at}`; an entry may lack `expires_at`, which then reads as 0. */
  datatype Entry = Entry(token: string, expiresAt: Option<int>)

  /** The single definition of "this cached token may still be used at `now`". */
  predicate Usable(e: Entry, now: int) {
    now < e.expiresAt.GetOr(0) - RenewalMargin
  }

  function CacheKey(installationId: string): string {
    "token_" + installationId
  }

  /** Distinct installations have distinct cache keys. */
  lemma CacheKeyInjective(a: string, b: string)
    requires CacheKey(a) == CacheKey(b)
    ensures a == b
  {
    assert a == CacheKey(a)[6..];
    assert b == CacheKey(b)[6..];
  }

  /** What a lookup of the cache finds: the cached token while it is usable, else nothing. */
  function CachedToken(entries: map<string, Entry>, installationId: string, now: int): (r: Option<string>)
    ensures r.Some? ==> CacheKey(installationId) in entries && r.value == entries[CacheKey(installationId)].token
    ensures r.Some? && now >= 0 ==>
              var e := entries[CacheKey(installationId)];
              e.expiresAt.Some? && now + RenewalMargin < e.expiresAt.value
  {
    var key := CacheKey(installationId);
    if key in entries && Usable(entries[key], now) then Some(entries[key].token) else None
  }

  /** The entry stored after a successful exchange at `now`. */
  function FreshEntry(token: string, now: int): Entry {
    Entry(token, Some(now + TokenLifetime))
  }

  /** A token the cache serves has more than the renewal margin left before it expires. */
  lemma ServedTokenOutlivesMargin(entries: map<string, Entry>, installationId: string, now: nat)
    requires CachedToken(entries, installationId, now).Some?
    ensures var e := entries[CacheKey(installationId)];
            e.expiresAt.Some? && now + RenewalMargin < e.expiresAt.value
            && CachedToken(entries, installationId, now) == Some(e.token)
  {
  }

  /** An entry inside its renewal margin is a miss, even though it has not expired yet. */
  lemma MarginIsMiss(entries: map<string, Entry>, installationId: string, now: int)
    requires CacheKey(installationId) in entries
    requires entries[CacheKey(installationId)].expiresAt.Some?
    requires entries[CacheKey(installationId)].expiresAt.value - RenewalMargin <= now
    ensures CachedToken(entries, installationId, now) == None
  {
  }

  /** An entry without an expiry never serves a token. */
  lemma NoExpiryIsMiss(entries: map<string, Entry>, installationId: string, now: nat)
    requires CacheKey(installationId) in entries
    requires entries[CacheKey(installationId)].expiresAt.None?
    ensures CachedToken(entries, installationId, now) == None
  {
  }

  /** An empty cache serves nothing. */
  lemma EmptyCacheMisses(installationId: string, now: int)
    ensures CachedToken(map[], installationId, now) == None
  {
  }

  /** After storing a fresh token for one installation, that token is served for exactly the
      next `TokenLifetime - RenewalMargin` seconds (3300 s). */
  lemma StoredTokenServedUntilMargin(entries: map<string, Entry>, installationId: string,
                                     token: string, now: int, later: int)
    requires now <= later
    ensures CachedToken(entries[CacheKey(installationId) := FreshEntry(token, now)], installationId, later)
         == if later < now + TokenLifetime - RenewalMargin then Some(token) else None
  {
  }

  /** Storing a token for one installation does not change what any other installation finds. */
  lemma StoreLeavesOthers(entries: map<string, Entry>, installationId: string, other: string,
                          token: string, now: int, later: int)
    requires other != installationId
    ensures CachedToken(entries[CacheKey(installationId) := FreshEntry(token, now)], other, later)
         == CachedToken(entries, other, later)
  {
    if CacheKey(other) == CacheKey(installationId) {
      CacheKeyInjective(other, installationId);
    }
  }

  /** GitHub's reply to `POST /app/installations/{id}/access_tokens`. */
  datatype TokenReply = TokenReply(status: int, token: Option<string>) | TokenUnreachable

  predicate IsSuccess(status: int) {
    200 <= status < 300
  }

  /** What the exchange yields: `raise_for_status`, then `data["token"]`. */
  function ExchangeResult(reply: TokenReply): (r: Result<string, AuthError>)
    ensures r.Ok? <==> reply.TokenReply? && IsSuccess(reply.status) && reply.token.Some?
    ensures r.Ok? ==> r.value == reply.token.value
    ensures reply.TokenReply? && !IsSuccess(reply.status) ==> r == Err(HttpStatus(reply.status))
  {
    match reply
    case TokenUnreachable => Err(TransportFailure)
    case TokenReply(status, token) =>
      if !IsSuccess(status) then Err(HttpStatus(status))
      else if token.None? then Err(MalformedReply)
      else Ok(token.value)
  }

  /** The module-level `_token_cache` and the functions that read and write it. */
  class TokenCache {
    var entries: map<string, Entry>

    constructor ()
      ensures entries == map[]
    {
      entries := map[];
    }

    /** `clear_token_cache`: afterwards every lookup misses. */
    method Clear()
      modifies this
      ensures entries == map[]
      ensures forall id, now :: CachedToken(entries, id, now) == None
    {
      entries := map[];
    }

    /** `get_installation_token`. `key` is what reading the key file yields and
        `reply` is what GitHub would answer; `exchanged` tells whether the exchange request
        was sent. */
    method GetInstallationToken(installationId: string, appId: string, privateKeyPath: string,
                                key: KeyFile, now: nat, reply: TokenReply)
      returns (r: Result<string, AuthError>, exchanged: bool)
      modifies this
      // a hit is served from the cache, with no exchange and no change
      ensures CachedToken(old(entries), installationId, now).Some? ==>
                r == Ok(CachedToken(old(entries), installationId, now).value)
                && !exchanged && entries == old(entries)
      // on a miss the assertion is made first; if that fails nothing is sent or stored
      ensures CachedToken(old(entries), installationId, now).None?
              && CreateJwt(appId, privateKeyPath, key, now).Err? ==>
                r == Err(CreateJwt(appId, privateKeyPath, key, now).error)
                && !exchanged && entries == old(entries)
      ensures exchanged <==> CachedToken(old(entries), installationId, now).None?
                             && CreateJwt(appId, privateKeyPath, key, now).Ok?
      // a successful exchange stores only this installation's entry and returns its token
      ensures exchanged ==> r == ExchangeResult(reply)
      ensures exchanged && r.Ok? ==>
                entries == old(entries)[CacheKey(installationId) := FreshEntry(r.value, now)]
      // a failed exchange raises before the store
      ensures exchanged && r.Err? ==> entries == old(entries)
    {
      var cacheKey := CacheKey(installationId);
      if cacheKey in entries {
        var cached := entries[cacheKey];
        if Usable(cached, now) {
          return Ok(cached.token), false;
        }
      }
      var jwt := CreateJwt(appId, privateKeyPath, key, now);
      if jwt.Err? {
        return Err(jwt.error), false;
      }
      exchanged := true;
      r := ExchangeResult(reply);
      if r.Ok? {
        entries := entries[cacheKey := FreshEntry(r.value, now)];
      }
    }
  }

  /** Two calls for one installation within 3300 seconds cost one exchange: the second is
      served from the cache with the first call's token, whatever GitHub would answer then. */
  method SecondCallServedFromCache(installationId: string, appId: string, privateKeyPath: string,
                                   keyText: string, token: string, first: nat, second: nat,
                                   laterReply: TokenReply)
    returns (r1: Result<string, AuthError>, r2: Result<string, AuthError>, exchanged2: bool)
    requires appId != "" && privateKeyPath != ""
    requires first <= second < first + TokenLifetime - RenewalMargin
    ensures r1 == Ok(token) && r2 == Ok(token) && !exchanged2
  {
    var cache := new TokenCache();
    var exchanged1;
    r1, exchanged1 := cache.GetInstallationToken(installationId, appId, privateKeyPath,
                                                 RsaKey(keyText), first, TokenReply(201, Some(token)));
    StoredTokenServedUntilMargin(map[], installationId, token, first, second);
    r2, exchanged2 := cache.GetInstallationToken(installationId, appId, privateKeyPath,
                                                 RsaKey(keyText), second, laterReply);
  }

  /** GitHub's reply to `GET /repos/{repo}/installation`. */
  datatype InstallationReply = InstallationReply(status: int, id: Option<int>) | InstallationUnreachable

  /** `get_app_installation_id`: the assertion is made with the configured app id and key;
      a non-2xx reply is "no installation" (`None`), not an error; a transport failure or a
      reply without `id` is an error. */
  function GetAppInstallationId(appId: string, privateKeyPath: string, key: KeyFile,
                                now: int, reply: InstallationReply)
    : (r: Result<Option<string>, AuthError>)
    ensures CreateJwt(appId, privateKeyPath, key, now).Err? ==>
              r == Err(CreateJwt(appId, privateKeyPath, key, now).error)
    ensures CreateJwt(appId, privateKeyPath, key, now).Ok? ==>
              && (reply.InstallationUnreachable? ==> r == Err(TransportFailure))
              && (reply.InstallationReply? && !IsSuccess(reply.status) ==> r == Ok(None))
              && (reply.InstallationReply? && IsSuccess(reply.status) && reply.id.None? ==>
                    r == Err(MalformedReply))
              && (reply.InstallationReply? && IsSuccess(reply.status) && reply.id.Some? ==>
                    r == Ok(Some(Text.IntToString(reply.id.value))))
    ensures r.Ok? && r.value.Some? ==>
              reply.InstallationReply? && IsSuccess(reply.status) && reply.id.Some?
              && r.value.value == Text.IntToString(reply.id.value)
  {
    var _ :- CreateJwt(appId, privateKeyPath, key, now);
    match reply
    case InstallationUnreachable => Err(TransportFailure)
    case InstallationReply(status, id) =>
      if !IsSuccess(status) then Ok(None)
      else if id.None? then Err(MalformedReply)
      else Ok(Some(Text.IntToString(id.value)))
  }

  /** A resolved installation id is never empty, and distinct numeric ids resolve to
      distinct strings. */
  lemma ResolvedIdsDistinct(appId: string, privateKeyPath: string, key: KeyFile,
                            now: int, a: nat, b: nat)
    requires CreateJwt(appId, privateKeyPath, key, now).Ok?
    ensures var ra := GetAppInstallationId(appId, privateKeyPath, key, now, InstallationReply(200, Some(a)));
            var rb := GetAppInstallationId(appId, privateKeyPath, key, now, InstallationReply(200, Some(b)));
            ra.Ok? && ra.value.Some? && ra.value.value != ""
            && (a != b ==> ra.value.value != rb.value.value)
  {
    if a != b && Text.NatToString(a) == Text.NatToString(b) {
      Text.NatToStringInjective(a, b);
    }
  }
}
