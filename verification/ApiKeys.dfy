/**
  Account API keys: how a key is stored, the scan that recognises a presented secret, the cache
  that groups active keys by prefix, and the choice made for every public request.
 */
module ApiKeys {
  import opened Wrappers
  import opened Text

  // A message authentication code, taken as injective: the constructor keeps what it was given.
  datatype Digest = Hmac(secret: string, message: string)

  datatype KeyStatus = Active | Disabled | Revoked

  datatype APIKey = APIKey(
    id: nat,
    accountId: nat,
    account: string,
    prefix: string,
    hash: Digest,
    status: KeyStatus)

  datatype AuthIdentity =
    | StaticRouterKey
    | AccountKey(accountId: nat, account: string, keyId: nat, prefix: string)

  datatype AuthError =
    | KeyRequired
    | KeyInvalid
    | MissingKey
    | InvalidRouterKey
    | ValidationUnavailable
    | QueryFailed

  type Answer = Result<AuthIdentity, AuthError>

  function ApiKeyPrefix(raw: string): (r: string)
    ensures |r| <= 12 && r <= TrimSpace(raw)
    ensures |r| < 12 ==> r == TrimSpace(raw)
  {
    var t := TrimSpace(raw);
    if |t| <= 12 then t else t[..12]
  }

  function HashAPIKey(raw: string, secret: string): Digest {
    Hmac(secret, TrimSpace(raw))
  }

  // The row CreateAPIKey inserts for a generated secret.
  function NewKey(id: nat, accountId: nat, account: string, raw: string, secret: string): APIKey {
    APIKey(id, accountId, account, ApiKeyPrefix(raw), HashAPIKey(raw, secret), Active)
  }

  // Prefix and hash of the row were computed from one secret text.
  ghost predicate Issued(key: APIKey) {
    exists raw: string, secret: string :: key.hash == HashAPIKey(raw, secret) && key.prefix == ApiKeyPrefix(raw)
  }

  ghost predicate AllIssued(keys: set<APIKey>) {
    forall key :: key in keys ==> Issued(key)
  }

  ghost predicate DistinctSecrets(keys: set<APIKey>) {
    forall a, b :: a in keys && b in keys && a.hash == b.hash ==> a == b
  }

  predicate Opens(key: APIKey, raw: string, secret: string) {
    key.status == Active && key.hash == HashAPIKey(raw, secret)
  }

  function Identity(key: APIKey): AuthIdentity {
    AccountKey(key.accountId, key.account, key.id, key.prefix)
  }

  function Elements(keys: seq<APIKey>): set<APIKey> {
    set key | key in keys
  }

  // What a scan of all keys must say of a presented secret, in whatever order it looks.
  ghost predicate Answers(r: Answer, raw: string, secret: string, keys: set<APIKey>) {
    if TrimSpace(raw) == "" then r == Failure(KeyRequired)
    else if r.Success? then exists key :: key in keys && Opens(key, raw, secret) && r.value == Identity(key)
    else r == Failure(KeyInvalid) && forall key :: key in keys ==> !Opens(key, raw, secret)
  }

  lemma AnswerUnique(a: Answer, b: Answer, raw: string, secret: string, keys: set<APIKey>)
    requires DistinctSecrets(keys)
    requires Answers(a, raw, secret, keys) && Answers(b, raw, secret, keys)
    ensures a == b
  {
    if TrimSpace(raw) != "" && a.Success? {
      var key :| key in keys && Opens(key, raw, secret) && a.value == Identity(key);
      assert b.Success?;
      var other :| other in keys && Opens(other, raw, secret) && b.value == Identity(other);
      assert key == other;
    }
  }

  // A key that a secret opens is stored under the prefix of that secret.
  lemma OpensPrefix(key: APIKey, raw: string, secret: string)
    requires Issued(key) && key.hash == HashAPIKey(raw, secret)
    ensures key.prefix == ApiKeyPrefix(raw)
  {
  }

  // A new key is opened by its own secret text, up to surrounding space, and by nothing else.
  lemma NewKeyOpens(id: nat, accountId: nat, account: string, raw: string, secret: string, raw': string, secret': string)
    ensures var key := NewKey(id, accountId, account, raw, secret);
            && Issued(key) && Identity(key) == AccountKey(accountId, account, id, ApiKeyPrefix(raw))
            && (Opens(key, raw', secret') <==> secret' == secret && TrimSpace(raw') == TrimSpace(raw))
  {
    var key := NewKey(id, accountId, account, raw, secret);
    assert key.hash == HashAPIKey(raw, secret) && key.prefix == ApiKeyPrefix(raw);
  }

  // ---------- validateAPIKeyCandidates ----------

  function Validated(raw: string, secret: string, keys: seq<APIKey>): Answer {
    if TrimSpace(raw) == "" then Failure(KeyRequired)
    else if keys == [] then Failure(KeyInvalid)
    else if Opens(keys[0], raw, secret) then Success(Identity(keys[0]))
    else Validated(raw, secret, keys[1..])
  }

  method ValidateAPIKeyCandidates(raw: string, secret: string, keys: seq<APIKey>) returns (r: Answer)
    ensures r == Validated(raw, secret, keys)
    ensures Answers(r, raw, secret, Elements(keys))
  {
    ValidatedAnswers(raw, secret, keys);
    if TrimSpace(raw) == "" {
      return Failure(KeyRequired);
    }
    var presented := HashAPIKey(raw, secret);
    for i := 0 to |keys|
      invariant Validated(raw, secret, keys) == Validated(raw, secret, keys[i..])
    {
      var key := keys[i];
      if key.status != Active || presented != key.hash {
        continue;
      }
      return Success(Identity(key));
    }
    return Failure(KeyInvalid);
  }

  lemma {:induction false} ValidatedAnswers(raw: string, secret: string, keys: seq<APIKey>)
    ensures Answers(Validated(raw, secret, keys), raw, secret, Elements(keys))
  {
    if keys != [] {
      ValidatedAnswers(raw, secret, keys[1..]);
      assert Elements(keys) == {keys[0]} + Elements(keys[1..]);
    }
  }

  // ---------- The prefix index ----------

  function Bucket(keys: seq<APIKey>, prefix: string): seq<APIKey> {
    if keys == [] then []
    else
      var rest := Bucket(keys[1..], prefix);
      if keys[0].status == Active && keys[0].prefix == prefix then [keys[0]] + rest else rest
  }

  lemma {:induction false} BucketSnoc(keys: seq<APIKey>, key: APIKey, prefix: string)
    ensures Bucket(keys + [key], prefix) ==
            Bucket(keys, prefix) + (if key.status == Active && key.prefix == prefix then [key] else [])
  {
    if keys == [] {
      assert keys + [key] == [key];
    } else {
      assert (keys + [key])[1..] == keys[1..] + [key];
      BucketSnoc(keys[1..], key, prefix);
    }
  }

  predicate Indexes(byPrefix: map<string, seq<APIKey>>, keys: seq<APIKey>) {
    && (forall p :: p in byPrefix ==> byPrefix[p] == Bucket(keys, p) != [])
    && (forall i :: 0 <= i < |keys| && keys[i].status == Active ==> keys[i].prefix in byPrefix)
  }

  lemma {:induction false} NoBucket(keys: seq<APIKey>, prefix: string)
    requires forall i :: 0 <= i < |keys| && keys[i].status == Active ==> keys[i].prefix != prefix
    ensures Bucket(keys, prefix) == []
  {
    if keys != [] {
      NoBucket(keys[1..], prefix);
    }
  }

  function Lookup(byPrefix: map<string, seq<APIKey>>, raw: string, secret: string): Answer {
    var p := ApiKeyPrefix(raw);
    if p == "" then Failure(KeyRequired)
    else Validated(raw, secret, if p in byPrefix then byPrefix[p] else [])
  }

  // Looking only under the prefix finds the very row that a scan of all the keys finds first.
  lemma {:induction false} BucketScan(raw: string, secret: string, keys: seq<APIKey>)
    requires AllIssued(Elements(keys))
    ensures Validated(raw, secret, Bucket(keys, ApiKeyPrefix(raw))) == Validated(raw, secret, keys)
  {
    if keys != [] {
      assert keys[0] in Elements(keys);
      assert forall key :: key in Elements(keys[1..]) ==> key in Elements(keys);
      BucketScan(raw, secret, keys[1..]);
      if Opens(keys[0], raw, secret) {
        OpensPrefix(keys[0], raw, secret);
      }
    }
  }

  lemma PrefixEmpty(raw: string)
    ensures ApiKeyPrefix(raw) == "" <==> TrimSpace(raw) == ""
  {
  }

  lemma LookupIsFullScan(byPrefix: map<string, seq<APIKey>>, keys: seq<APIKey>, raw: string, secret: string)
    requires Indexes(byPrefix, keys) && AllIssued(Elements(keys))
    ensures Lookup(byPrefix, raw, secret) == Validated(raw, secret, keys)
    ensures Answers(Lookup(byPrefix, raw, secret), raw, secret, Elements(keys))
  {
    PrefixEmpty(raw);
    BucketScan(raw, secret, keys);
    ValidatedAnswers(raw, secret, keys);
    var p := ApiKeyPrefix(raw);
    if p !in byPrefix {
      NoBucket(keys, p);
    }
  }

  class APIKeyCache {
    var version: int
    var byPrefix: map<string, seq<APIKey>>

    constructor ()
      ensures version == 0 && Indexes(byPrefix, [])
    {
      version, byPrefix := 0, map[];
    }

    method Replace(keys: seq<APIKey>, newVersion: int)
      modifies this
      ensures version == newVersion && Indexes(byPrefix, keys)
    {
      var grouped: map<string, seq<APIKey>> := map[];
      for i := 0 to |keys|
        invariant Indexes(grouped, keys[..i])
      {
        var key := keys[i];
        assert keys[..i + 1] == keys[..i] + [key];
        forall p ensures Bucket(keys[..i + 1], p) ==
                         Bucket(keys[..i], p) + (if key.status == Active && key.prefix == p then [key] else []) {
          BucketSnoc(keys[..i], key, p);
        }
        if key.status == Active {
          if key.prefix !in grouped {
            NoBucket(keys[..i], key.prefix);
          }
          var bucket := if key.prefix in grouped then grouped[key.prefix] else [];
          grouped := grouped[key.prefix := bucket + [key]];
        }
      }
      assert keys[..|keys|] == keys;
      version, byPrefix := newVersion, grouped;
    }

    method Validate(raw: string, secret: string) returns (r: Answer)
      ensures r == Lookup(byPrefix, raw, secret)
      ensures forall keys :: Indexes(byPrefix, keys) && AllIssued(Elements(keys)) ==>
                r == Validated(raw, secret, keys) && Answers(r, raw, secret, Elements(keys))
    {
      forall keys | Indexes(byPrefix, keys) && AllIssued(Elements(keys))
        ensures Lookup(byPrefix, raw, secret) == Validated(raw, secret, keys)
        ensures Answers(Lookup(byPrefix, raw, secret), raw, secret, Elements(keys))
      {
        LookupIsFullScan(byPrefix, keys, raw, secret);
      }
      var prefix := ApiKeyPrefix(raw);
      if prefix == "" {
        return Failure(KeyRequired);
      }
      var keys := if prefix in byPrefix then byPrefix[prefix] else [];
      r := ValidateAPIKeyCandidates(raw, secret, keys);
    }
  }

  // ---------- The database path ----------

  // The prefix query may return its rows in any order, and more rows of the table than asked
  // for (a collation may take other prefixes as equal), but never loses a match.
  ghost predicate PrefixQuery(rows: seq<APIKey>, keys: set<APIKey>, prefix: string) {
    && (forall key :: key in rows ==> key in keys)
    && (forall key :: key in keys && key.status == Active && key.prefix == prefix ==> key in rows)
  }

  method ValidateAPIKey(raw: string, secret: string, rows: seq<APIKey>, ghost keys: set<APIKey>) returns (r: Answer)
    requires PrefixQuery(rows, keys, ApiKeyPrefix(raw)) && AllIssued(keys)
    ensures Answers(r, raw, secret, keys)
  {
    PrefixEmpty(raw);
    var prefix := ApiKeyPrefix(raw);
    if prefix == "" {
      return Failure(KeyRequired);
    }
    r := ValidateAPIKeyCandidates(raw, secret, rows);
    forall key | key in keys && Opens(key, raw, secret)
      ensures key in rows
    {
      OpensPrefix(key, raw, secret);
    }
  }

  // ---------- The request's own key ----------

  function BearerToken(header: string): string {
    var h := TrimSpace(header);
    if |h| >= 7 && ToLower(h[..7]) == "bearer " then TrimSpace(h[7..]) else ""
  }

  function KeyFromRequest(authorization: string, xApiKey: string): string {
    if BearerToken(authorization) != "" then BearerToken(authorization) else TrimSpace(xApiKey)
  }

  // A bearer token is taken exactly as its trimmed text, whatever surrounds it and however the
  // scheme is cased, and it takes precedence over the x-api-key header.
  lemma BearerWins(scheme: string, token: string, xApiKey: string)
    requires ToLower(scheme) == "bearer " && TrimSpace(token) != ""
    ensures KeyFromRequest(scheme + token, xApiKey) == TrimSpace(token)
    ensures KeyFromRequest("", xApiKey) == TrimSpace(xApiKey)
  {
    BearerKeepsHead(scheme, token);
    var h := TrimSpace(scheme + token);
    assert |scheme| == 7;
    assert h[..7] == scheme && h[7..] == TrimRight(token, Spaces);
    TrimOfTrimRight(token);
    TrimSpaceFixed("");
  }

  lemma BearerKeepsHead(scheme: string, token: string)
    requires ToLower(scheme) == "bearer " && TrimSpace(token) != ""
    ensures TrimSpace(scheme + token) == scheme + TrimRight(token, Spaces)
  {
    assert LowerChar(scheme[0]) == 'b';
    assert !IsSpace(scheme[0]);
    assert (scheme + token)[0] == scheme[0];
    assert TrimLeft(scheme + token, Spaces) == scheme + token;
    TrimRightAppend(scheme, token, Spaces);
  }

  lemma {:induction false} TrimRightAppend(s: string, t: string, cut: Cutset)
    requires Trim(t, cut) != ""
    ensures TrimRight(s + t, cut) == s + TrimRight(t, cut)
  {
    TrimmedFixed(t, cut);
    if t != "" && Cuts(cut, t[|t| - 1]) {
      var c := t[|t| - 1];
      assert t == t[..|t| - 1] + [c];
      TrimIgnoresBack(t[..|t| - 1], c, cut);
      assert (s + t)[..|s + t| - 1] == s + t[..|t| - 1];
      TrimRightAppend(s, t[..|t| - 1], cut);
    }
  }

  lemma {:induction false} TrimOfTrimRight(t: string)
    ensures TrimSpace(TrimRight(t, Spaces)) == TrimSpace(t)
  {
    if t != "" && IsSpace(t[|t| - 1]) {
      assert t == t[..|t| - 1] + [t[|t| - 1]];
      TrimSpaceIgnores(t[..|t| - 1], t[|t| - 1]);
      TrimOfTrimRight(t[..|t| - 1]);
    }
  }

  // ---------- authenticatePublicRequest ----------

  datatype AuthConfig = AuthConfig(apiKey: string, accountKeyAuth: bool, hashSecret: string)

  // What the prefix query of the store answers: no store, an error, or rows.
  datatype StoreAnswer = NoStore | QueryError | Rows(rows: seq<APIKey>)

  // What each request must be told, given the set of keys that validation consults.
  ghost predicate Authenticated(
    r: Result<Option<AuthIdentity>, AuthError>, cfg: AuthConfig, raw: string, keys: set<APIKey>)
  {
    if cfg.apiKey != "" && raw == cfg.apiKey then r == Success(Some(StaticRouterKey))
    else if cfg.accountKeyAuth then
      if raw == "" then r == Failure(MissingKey)
      else
        match r
        case Success(who) => who.Some? && Answers(Success(who.value), raw, cfg.hashSecret, keys)
        case Failure(e) => Answers(Failure(e), raw, cfg.hashSecret, keys)
    else if cfg.apiKey != "" then r == Failure(InvalidRouterKey)
    else r == Success(None)
  }

  function WithIdentity(r: Answer): Result<Option<AuthIdentity>, AuthError> {
    match r
    case Success(who) => Success(Some(who))
    case Failure(e) => Failure(e)
  }

  // The cache answers once it has been loaded; until then each request asks the database.
  method AuthenticatePublicRequest(
      cfg: AuthConfig, raw: string, cache: APIKeyCache?, store: StoreAnswer,
      ghost cached: seq<APIKey>, ghost keys: set<APIKey>)
    returns (r: Result<Option<AuthIdentity>, AuthError>)
    requires cache != null ==> Indexes(cache.byPrefix, cached)
    requires store.Rows? ==> PrefixQuery(store.rows, keys, ApiKeyPrefix(raw))
    requires AllIssued(Elements(cached)) && AllIssued(keys)
    ensures cache != null && cache.version > 0 ==> Authenticated(r, cfg, raw, Elements(cached))
    ensures (cache == null || cache.version <= 0) && store.Rows? ==> Authenticated(r, cfg, raw, keys)
    ensures r == Failure(ValidationUnavailable) || r == Failure(QueryFailed) ==>
              cfg.accountKeyAuth && raw != cfg.apiKey && (cache == null || cache.version <= 0) && !store.Rows?
  {
    PrefixEmpty(raw);
    if cfg.apiKey != "" && raw == cfg.apiKey {
      return Success(Some(StaticRouterKey));
    }
    if cfg.accountKeyAuth {
      if raw == "" {
        return Failure(MissingKey);
      }
      if cache != null && cache.version > 0 {
        var answer := cache.Validate(raw, cfg.hashSecret);
        return WithIdentity(answer);
      }
      match store
      case Rows(rows) =>
        var answer := ValidateAPIKey(raw, cfg.hashSecret, rows, keys);
        return WithIdentity(answer);
      case QueryError =>
        // validation of a blank key fails before the query is made
        return Failure(if ApiKeyPrefix(raw) == "" then KeyRequired else QueryFailed);
      case NoStore =>
        return Failure(ValidationUnavailable);
    }
    if cfg.apiKey != "" {
      return Failure(InvalidRouterKey);
    }
    return Success(None);
  }

  predicate Admits(r: Result<Option<AuthIdentity>, AuthError>) {
    r.Success?
  }

  // With authentication configured, a request enters exactly when it presents the router's own
  // key or a secret that opens a key of the consulted set.
  lemma AdmitsExactly(r: Result<Option<AuthIdentity>, AuthError>, cfg: AuthConfig, raw: string, keys: set<APIKey>)
    requires Authenticated(r, cfg, raw, keys)
    ensures Admits(r) <==>
              || (cfg.apiKey == "" && !cfg.accountKeyAuth)
              || (cfg.apiKey != "" && raw == cfg.apiKey)
              || (cfg.accountKeyAuth && TrimSpace(raw) != "" && exists key :: key in keys && Opens(key, raw, cfg.hashSecret))
  {
    assert TrimSpace("") == "";
  }

  // Cache and database give one answer when they hold the same keys.
  lemma SourcesAgree(
      a: Result<Option<AuthIdentity>, AuthError>, b: Result<Option<AuthIdentity>, AuthError>,
      cfg: AuthConfig, raw: string, keys: set<APIKey>)
    requires DistinctSecrets(keys)
    requires Authenticated(a, cfg, raw, keys) && Authenticated(b, cfg, raw, keys)
    ensures a == b
  {
    if !(cfg.apiKey != "" && raw == cfg.apiKey) && cfg.accountKeyAuth && raw != "" {
      var x := if a.Success? then Success(a.value.value) else Failure(a.error);
      var y := if b.Success? then Success(b.value.value) else Failure(b.error);
      AnswerUnique(x, y, raw, cfg.hashSecret, keys);
    }
  }
}
