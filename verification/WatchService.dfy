/** The public watch service, statement by statement, for requests that nothing interrupts. */
module WatchService {
  import opened Wrappers
  import opened ShareLinks
  import opened WatchModel

  class PublicService {
    var db: Db
    var memoryCache: Cache
    const config: Config

    constructor (config: Config, db: Db)
      ensures this.config == config && this.db == db && memoryCache == map[]
    {
      this.config, this.db, memoryCache := config, db, map[];
    }

    /** One conditional update; the caller learns whether it matched. */
    method IncrementShareLinkView(policy: Policy, now: Time) returns (incremented: bool)
      modifies `db
      ensures (db, incremented) == Claim(old(db), policy, now)
      ensures incremented <==> RowAdmits(old(db), policy, now)
      ensures db == if !incremented then old(db)
                    else var link := old(db).links[policy.linkId];
                         old(db).(links := old(db).links[
                                    policy.linkId := link.(currentViews := link.currentViews + 1)])
    {
      if policy.linkId !in db.links { return false; }
      var link := db.links[policy.linkId];
      if link.status != ACTIVE { return false; }
      if link.expiresAt.Some? && link.expiresAt.value <= now { return false; }
      if policy.maxViews.Some? && link.currentViews >= policy.maxViews.value { return false; }
      db := db.(links := db.links[policy.linkId := link.(currentViews := link.currentViews + 1)]);
      return true;
    }

    method WritePublicWatchCache(key: Key, seen: Seen, now: Time)
      modifies `memoryCache
      ensures memoryCache == WriteCache(old(memoryCache), key, seen, config, now)
    {
      if seen.link.status != ACTIVE || seen.link.maxViews.Some? { return; }
      if seen.link.expiresAt.Some? && seen.link.expiresAt.value - now <= config.ttlSeconds * 1000 { return; }
      var videos := SelectPlayable(seen.videos, config.canSign);
      if videos == [] { return; }
      memoryCache := memoryCache[key := Entry(seen.websiteId, PolicyOf(seen.linkId, seen.link), videos)];
    }

    method ResolvePublicWatchUncached(p: Params, now: Time) returns (response: Response)
      modifies this
      ensures (db, memoryCache, response) == Cold(old(db), old(memoryCache), config, p, now)
      ensures response.Invalid? ==> db == old(db) && (response.reason == MISSING_HOST <==> p.host.None?)
      ensures response.Valid? ==>
                && response.linkId in old(db).links
                && db == (if p.origin == Resume then old(db) else CountView(old(db), response.linkId))
                && (response.mediaGrants <==> old(db).links[response.linkId].maxViews.Some?)
    {
      ColdAdmitsIff(db, memoryCache, config, p, now);
      if Cold(db, memoryCache, config, p, now).2.Invalid? {
        RefusalsNameTheFirstFault(db, memoryCache, config, p, now);
      }
      if p.host.None? { return Invalid(MISSING_HOST); }
      var website := FindWebsite(db, p.host.value);
      if website.None? { return Invalid(INVALID_LINK); }
      if p.token == "" { return Invalid(MISSING_TOKEN); }
      if !config.pepper { return Invalid(SERVER_ERROR); }
      var found := FindBy(db.byAlias, db, website.value, p.token);
      if found.None? { found := FindBy(db.byToken, db, website.value, p.token); }
      if found.None? { return Invalid(INVALID_LINK); }
      var seen := ReadLink(db, website.value, found.value);
      var denied := DeniedReason(PolicyOf(seen.linkId, seen.link), now);
      if denied.Some? { return Invalid(denied.value); }
      if SelectPlayable(seen.videos, config.canSign) == [] { return Invalid(NO_VIDEOS); }
      var viewIncremented := true;
      if p.origin != Resume {
        viewIncremented := IncrementShareLinkView(PolicyOf(seen.linkId, seen.link), now);
      }
      if !viewIncremented { return Invalid(LatestReason(db, seen.linkId, now)); }
      WritePublicWatchCache(KeyOf(p), seen, now);
      return AnswerCold(db, seen, config, p.origin);
    }

    /** Each path reads the clock for itself: `now` for the cached one, `again` for the other. */
    method ResolvePublicWatch(p: Params, now: Time, again: Time) returns (response: Response)
      modifies this
      ensures (db, memoryCache, response) == Resolve(old(db), old(memoryCache), config, p, now, again)
    {
      if p.origin == Watch && p.host.Some? && p.token != "" {
        var key := KeyOf(p);
        if key in memoryCache {
          var entry := memoryCache[key];
          if DeniedReason(entry.policy, now).None? && SelectPlayable(entry.videos, config.canSign) != [] {
            var viewIncremented := IncrementShareLinkView(entry.policy, now);
            if viewIncremented { return AnswerWarm(db, entry, config, p.origin); }
          }
          memoryCache := memoryCache - {key};
        } else {
          assert memoryCache - {key} == memoryCache;
        }
      }
      response := ResolvePublicWatchUncached(p, again);
    }
  }
}
