/**
 The auth cache's two maps, updated in place, and getUserAndRoles, which fills them. Each call is proved to have the effect
 the protocol gives it; the clock readings are parameters.
 */
module AuthCache {
  import opened Wrappers
  import opened AuthProtocol

  /** The header or session value: empty, not a UUID, or an id. */
  datatype UserId = Anonymous | Malformed | Parsed(id: Id)

  /** What FindWithRoles answers; the user can be nil. */
  datatype Found = Failed | Rows(user: Option<AuthUser>, roles: seq<string>)

  datatype Answer = Error | Answer(user: Option<AuthUser>, roles: seq<string>)

  class Cache {
    var authCache: map<Id, CachedAuth>
    var tombstones: map<Id, int>

    ghost function Tables(): AuthProtocol.Tables
      reads this
    {
      AuthProtocol.Tables(authCache, tombstones)
    }

    method CacheGet(id: Id, now: int) returns (hit: Option<CachedAuth>)
      modifies this`authCache
      ensures (Tables(), hit) == Get(old(Tables()), id, now)
      ensures hit.Some? <==> id in old(authCache) && now <= old(authCache)[id].expires
      ensures hit.Some? ==> hit.value == old(authCache)[id] && authCache == old(authCache)
      ensures hit.None? ==> authCache == old(authCache) - {id}
    {
      if id !in authCache {
        return None;
      }
      var e := authCache[id];
      if now > e.expires {
        authCache := authCache - {id};
        return None;
      }
      return Some(e);
    }

    /** A nil user is ignored. */
    method CacheSet(user: Option<AuthUser>, roles: seq<string>, now: int, later: int)
      modifies this
      ensures Tables() == if user.None? then old(Tables()) else Set(old(Tables()), user.value, roles, now, later)
      ensures if user.None? || (user.value.id in old(tombstones) && now < old(tombstones)[user.value.id]) then
                authCache == old(authCache) && tombstones == old(tombstones)
              else
                && authCache == old(authCache)[user.value.id := CachedAuth(user.value, roles, later + CACHE_TTL)]
                && tombstones == old(tombstones) - {user.value.id}
    {
      if user.None? {
        return;
      }
      var id := user.value.id;
      if id in tombstones {
        if now < tombstones[id] {
          return;
        }
        tombstones := tombstones - {id};
      }
      authCache := authCache[id := CachedAuth(user.value, roles, later + CACHE_TTL)];
      assert tombstones == old(tombstones) - {id};
    }

    method CacheInvalidate(id: Id, now: int)
      modifies this
      ensures Tables() == Invalidate(old(Tables()), id, now)
      ensures authCache == old(authCache) - {id} && tombstones == old(tombstones)[id := now + TOMBSTONE_TTL]
    {
      tombstones := tombstones[id := now + TOMBSTONE_TTL];
      authCache := authCache - {id};
    }

    /**
     getUserAndRoles. A hit answers from the cache and touches nothing; a miss answers what the database said, and offers
     exactly that to the cache; an error, a malformed id and an anonymous request leave the cache alone.
     */
    method GetUserAndRoles(userId: UserId, found: Found, asked: int, now: int, later: int) returns (answer: Answer)
      modifies this
      ensures userId.Anonymous? ==> answer == Answer(None, []) && Tables() == old(Tables())
      ensures userId.Malformed? ==> answer == Error && Tables() == old(Tables())
      ensures userId.Parsed? ==>
                var (missed, hit) := Get(old(Tables()), userId.id, asked);
                match hit
                case Some(e) => answer == Answer(Some(e.user), e.roles) && Tables() == old(Tables())
                case None =>
                  if found.Failed? then answer == Error && Tables() == missed
                  else answer == Answer(found.user, found.roles)
                       && Tables() == if found.user.None? then missed else Set(missed, found.user.value, found.roles, now, later)
    {
      match userId {
        case Anonymous => answer := Answer(None, []);
        case Malformed => answer := Error;
        case Parsed(id) =>
          var hit := CacheGet(id, asked);
          if hit.Some? {
            return Answer(Some(hit.value.user), hit.value.roles);
          }
          if found.Failed? {
            return Error;
          }
          CacheSet(found.user, found.roles, now, later);
          answer := Answer(found.user, found.roles);
      }
    }
  }
}
