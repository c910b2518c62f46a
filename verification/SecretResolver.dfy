/** Secret references and the TTL cache in front of the secret backend. Times and TTLs are in nanoseconds. */
module SecretResolver {
  import opened Results
  import opened Text

  const VAULT_PREFIX := "vault:"

  datatype Parsed = Literal | Invalid | Ref(ref: string, path: string, field: string)

  /** How `Resolve` reads its argument. */
  function Parse(cfg: string): Parsed {
    if |cfg| < |VAULT_PREFIX| || cfg[..|VAULT_PREFIX|] != VAULT_PREFIX then Literal
    else
      var ref := cfg[|VAULT_PREFIX|..];
      match Cut(ref, '#')
      case None => Invalid
      case Some((path, field)) => if path == "" || field == "" then Invalid else Ref(ref, path, field)
  }

  /** References and path/field pairs correspond one to one: the split at the first `#` undoes the concatenation. */
  lemma ParseIsExact(cfg: string, ref: string, path: string, field: string)
    ensures Parse(cfg) == Ref(ref, path, field) <==>
      && ref == path + "#" + field && cfg == "vault:" + ref
      && path != "" && field != "" && Free(path, '#')
    ensures IsRef(cfg) <==> !Parse(cfg).Literal?
  {
    var n := |VAULT_PREFIX|;
    if |cfg| >= n {
      assert cfg == cfg[..n] + cfg[n..];
      CutSpec(cfg[n..], '#', path, field);
    }
    if cfg == VAULT_PREFIX + ref {
      assert cfg[n..] == ref && cfg[..n] == VAULT_PREFIX;
    }
  }

  predicate IsRef(cfg: string) {
    VAULT_PREFIX <= cfg
  }

  datatype CachedSecret = CachedSecret(value: string, expiresAt: int)

  type Cache = map<string, CachedSecret>

  /** `cacheGet`: an entry is good up to and including its expiry; a later look evicts it. */
  function Get(cache: Cache, ref: string, now: int): (Option<string>, Cache) {
    if ref !in cache then (None, cache)
    else if now > cache[ref].expiresAt then (None, cache - {ref})
    else (Some(cache[ref].value), cache)
  }

  /** `cacheSet`: a TTL that is not positive removes the entry. */
  function Set(cache: Cache, ref: string, value: string, ttl: int, now: int): Cache {
    if ttl <= 0 then cache - {ref} else cache[ref := CachedSecret(value, now + ttl)]
  }

  datatype Reply = Secret(value: string, ttl: int) | Failure(error: string)

  datatype Error = InvalidRef | NoBackend | Cancelled | Backend(error: string)

  /** What a caller gets when nobody interferes with it. */
  function Alone(cache: Cache, hasBackend: bool, cfg: string, lookAt: int, reply: Reply): Result<string, Error> {
    match Parse(cfg)
    case Literal => Ok(cfg)
    case Invalid => Err(InvalidRef)
    case Ref(ref, _, _) =>
      match Get(cache, ref, lookAt).0
      case Some(v) => Ok(v)
      case None =>
        if !hasBackend then Err(NoBackend)
        else match reply
          case Secret(v, _) => Ok(v)
          case Failure(e) => Err(Backend(e))
  }

  /** What such a caller leaves in the cache. */
  function AfterAlone(cache: Cache, hasBackend: bool, cfg: string, lookAt: int, reply: Reply, storeAt: int): Cache {
    match Parse(cfg)
    case Literal => cache
    case Invalid => cache
    case Ref(ref, _, _) =>
      var (found, looked) := Get(cache, ref, lookAt);
      if found.None? && hasBackend && reply.Secret? then Set(looked, ref, reply.value, reply.ttl, storeAt) else looked
  }

  /** The cache the resolver's lock protects. */
  class Resolver {
    const hasBackend: bool
    var cache: Cache

    constructor (hasBackend: bool)
      ensures this.hasBackend == hasBackend && cache == map[]
    {
      this.hasBackend := hasBackend;
      cache := map[];
    }

    method CacheGet(ref: string, now: int) returns (found: Option<string>)
      modifies this
      ensures (found, cache) == Get(old(cache), ref, now)
    {
      if ref !in cache {
        return None;
      }
      var cached := cache[ref];
      if now > cached.expiresAt {
        cache := cache - {ref};
        return None;
      }
      return Some(cached.value);
    }

    method CacheSet(ref: string, value: string, ttl: int, now: int)
      modifies this
      ensures cache == Set(old(cache), ref, value, ttl, now)
    {
      if ttl <= 0 {
        cache := cache - {ref};
        return;
      }
      cache := cache[ref := CachedSecret(value, now + ttl)];
    }

    /** `Resolve` by a caller that nobody interferes with: what it looks up, re-checks and stores at the given times. */
    method Resolve(cfg: string, lookAt: int, recheckAt: int, reply: Reply, storeAt: int)
      returns (result: Result<string, Error>)
      requires lookAt <= recheckAt <= storeAt
      modifies this
      ensures !("vault:" <= cfg) ==> result == Ok(cfg)
      ensures "vault:" <= cfg && !Parse(cfg).Ref? ==> result == Err(InvalidRef)
      ensures result == Alone(old(cache), hasBackend, cfg, lookAt, reply)
      ensures cache == AfterAlone(old(cache), hasBackend, cfg, lookAt, reply, storeAt)
    {
      var parsed := Parse(cfg);
      if parsed.Literal? {
        return Ok(cfg);
      }
      if parsed.Invalid? {
        return Err(InvalidRef);
      }
      var ref := parsed.ref;
      var found := CacheGet(ref, lookAt);
      if found.Some? {
        return Ok(found.value);
      }
      if !hasBackend {
        return Err(NoBackend);
      }
      found := CacheGet(ref, recheckAt);
      assert found.None?;
      if reply.Failure? {
        return Err(Backend(reply.error));
      }
      CacheSet(ref, reply.value, reply.ttl, storeAt);
      return Ok(reply.value);
    }
  }
}
