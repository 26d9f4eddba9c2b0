/**
 Public watch resolution: the rows it reads, the view claim it makes, and the metadata cache it may
 answer from. `Resolve` and `Cold` are whole requests that nothing interrupts; WatchRuns takes the
 same pieces apart into interleaved steps.

 Tokens stand for their peppered hashes, and a cache key for its (process, host, token) parts.
 */
module WatchModel {
  import opened Wrappers
  import opened ShareLinks

  type Id = nat
  type Time = int

  /** The columns of a video that playability and signing look at; `content` stands for the rest. */
  datatype Source = BunnyEmbed(bunnyId: nat) | MalformedBunny | Other(servable: bool)
  datatype Video = Video(id: Id, ready: bool, source: Source, remoteMissing: bool, content: nat)

  datatype Link = Link(
    websiteId: Id,
    status: LinkStatus,
    expiresAt: Option<Time>,
    maxViews: Option<nat>,
    currentViews: nat,
    members: seq<Id>)

  /** `hosts` are the domains with the website they belong to; `byAlias` and `byToken` are unique indexes. */
  datatype Db = Db(
    hosts: map<string, Id>,
    activeHosts: set<string>,
    activeWebsites: set<Id>,
    links: map<Id, Link>,
    byAlias: map<string, Id>,
    byToken: map<string, Id>,
    videos: map<Id, Video>,
    assignments: set<(Id, Id)>)

  datatype Origin = Watch | Compat | Resume
  datatype Params = Params(process: nat, host: Option<string>, token: string, origin: Origin)
  datatype Config = Config(pepper: bool, canSign: bool, ttlSeconds: nat)

  datatype Reason = MISSING_HOST | MISSING_TOKEN | SERVER_ERROR | INVALID_LINK | EXPIRED_LINK | VIEW_LIMIT_REACHED
    | NO_VIDEOS

  /** A video as served: its row, and whether a signed embed URL was minted for it. */
  datatype Shown = Shown(video: Video, signed: bool)

  datatype Response =
    | Valid(websiteId: Id, linkId: Id, videos: seq<Shown>, mediaGrants: bool, aliasFree: bool, resumeGrant: bool)
    | Invalid(reason: Reason)

  // ---------------------------------------------------------------- the link's policy

  /** The columns every admission decision is made from. */
  datatype Policy = Policy(linkId: Id, status: LinkStatus, expiresAt: Option<Time>, maxViews: Option<nat>,
                           currentViews: nat)

  function PolicyOf(l: Id, link: Link): Policy {
    Policy(l, link.status, link.expiresAt, link.maxViews, link.currentViews)
  }

  predicate Unexpired(expiresAt: Option<Time>, now: Time) {
    expiresAt.None? || expiresAt.value > now
  }

  function DeniedReason(policy: Policy, now: Time): Option<Reason> {
    if policy.status != ACTIVE then Some(INVALID_LINK)
    else if !Unexpired(policy.expiresAt, now) then Some(EXPIRED_LINK)
    else if policy.maxViews.Some? && policy.currentViews >= policy.maxViews.value then Some(VIEW_LIMIT_REACHED)
    else None
  }

  /** The `where` of the claim: the row's status and expiry as they are now, the limit as it was read. */
  predicate ClaimMatches(db: Db, policy: Policy, now: Time) {
    && policy.linkId in db.links
    && var link := db.links[policy.linkId];
       && link.status == ACTIVE && Unexpired(link.expiresAt, now)
       && (policy.maxViews.Some? ==> link.currentViews < policy.maxViews.value)
  }

  function CountView(db: Db, l: Id): Db
    requires l in db.links
  {
    db.(links := db.links[l := db.links[l].(currentViews := db.links[l].currentViews + 1)])
  }

  /** incrementShareLinkView: one conditional update. */
  function Claim(db: Db, policy: Policy, now: Time): (Db, bool) {
    if ClaimMatches(db, policy, now) then (CountView(db, policy.linkId), true) else (db, false)
  }

  // ---------------------------------------------------------------- videos

  predicate Playable(v: Video, canSign: bool) {
    v.ready && (match v.source
                case BunnyEmbed(_) => canSign
                case MalformedBunny => false
                case Other(servable) => servable)
  }

  function SelectPlayable(videos: seq<Video>, canSign: bool): seq<Video> {
    if videos == [] then []
    else
      var rest := SelectPlayable(videos[1..], canSign);
      if Playable(videos[0], canSign) then [videos[0]] + rest else rest
  }

  /** The link's videos in order, without those no longer assigned to the website. */
  function AssignedVideos(db: Db, members: seq<Id>, websiteId: Id): seq<Video> {
    if members == [] then []
    else
      var rest := AssignedVideos(db, members[1..], websiteId);
      if members[0] in db.videos && (websiteId, members[0]) in db.assignments then [db.videos[members[0]]] + rest
          else rest
  }

  /** The authoritative gate: the current row, not the one at hand, decides whether a token is minted. */
  predicate Signable(db: Db, v: Video) {
    && v.source.BunnyEmbed?
    && v.id in db.videos
    && var row := db.videos[v.id];
       row.ready && !row.remoteMissing && row.source == v.source
  }

  function Present(db: Db, videos: seq<Video>): seq<Shown> {
    seq(|videos|, i requires 0 <= i < |videos| => Shown(videos[i], Signable(db, videos[i])))
  }

  // ---------------------------------------------------------------- finding the link

  function FindWebsite(db: Db, host: string): Option<Id> {
    if host in db.hosts && host in db.activeHosts && db.hosts[host] in db.activeWebsites then Some(db.hosts[host])
        else None
  }

  function FindBy(index: map<string, Id>, db: Db, websiteId: Id, key: string): Option<Id> {
    if key in index && index[key] in db.links && db.links[index[key]].websiteId == websiteId then Some(index[key])
        else None
  }

  function FindLink(db: Db, websiteId: Id, token: string): Option<Id> {
    var byAlias := FindBy(db.byAlias, db, websiteId, token);
    if byAlias.Some? then byAlias else FindBy(db.byToken, db, websiteId, token)
  }

  /** One link row with its videos, as one query returned them. */
  datatype Seen = Seen(websiteId: Id, linkId: Id, link: Link, videos: seq<Video>)

  function ReadLink(db: Db, websiteId: Id, l: Id): Seen
    requires l in db.links
  {
    Seen(websiteId, l, db.links[l], AssignedVideos(db, db.links[l].members, websiteId))
  }

  // ---------------------------------------------------------------- the cache

  datatype Key = Key(process: nat, host: string, token: string)
  datatype Entry = Entry(websiteId: Id, policy: Policy, videos: seq<Video>)
  type Cache = map<Key, Entry>

  predicate CanCache(link: Link, now: Time, ttlSeconds: nat) {
    && link.status == ACTIVE
    && link.maxViews.None?
    && (link.expiresAt.Some? ==> link.expiresAt.value - now > ttlSeconds * 1000)
  }

  function WriteCache(cache: Cache, key: Key, seen: Seen, config: Config, now: Time): Cache {
    var videos := SelectPlayable(seen.videos, config.canSign);
    if !CanCache(seen.link, now, config.ttlSeconds) || videos == [] then cache
    else cache[key := Entry(seen.websiteId, PolicyOf(seen.linkId, seen.link), videos)]
  }

  predicate MayUseCache(p: Params) {
    p.origin == Watch && p.host.Some? && p.token != ""
  }

  function KeyOf(p: Params): Key
    requires p.host.Some?
  {
    Key(p.process, p.host.value, p.token)
  }

  // ---------------------------------------------------------------- whole requests

  function Answer(db: Db, websiteId: Id, linkId: Id, videos: seq<Video>, budgeted: bool, unlimited: bool,
                  origin: Origin): Response
  {
    Valid(websiteId, linkId, Present(db, videos), budgeted, origin != Watch, origin == Compat && unlimited)
  }

  function AnswerCold(db: Db, seen: Seen, config: Config, origin: Origin): Response {
    Answer(db, seen.websiteId, seen.linkId, SelectPlayable(seen.videos, config.canSign), seen.link.maxViews.Some?,
           seen.link.maxViews.None? && seen.link.expiresAt.None?, origin)
  }

  /** A cached answer is built without the link row, so it never carries a media grant. */
  function AnswerWarm(db: Db, entry: Entry, config: Config, origin: Origin): Response {
    Answer(db, entry.websiteId, entry.policy.linkId, SelectPlayable(entry.videos, config.canSign), false,
           entry.policy.maxViews.None? && entry.policy.expiresAt.None?, origin)
  }

  /** Why a claim that failed is refused, from the row as it is then. */
  function LatestReason(db: Db, l: Id, now: Time): Reason {
    if l in db.links then DeniedReason(PolicyOf(l, db.links[l]), now).GetOr(INVALID_LINK) else INVALID_LINK
  }

  /** resolvePublicWatchUncached */
  function Cold(db: Db, cache: Cache, config: Config, p: Params, now: Time): (Db, Cache, Response) {
    if p.host.None? then (db, cache, Invalid(MISSING_HOST))
    else
      var website := FindWebsite(db, p.host.value);
      if website.None? then (db, cache, Invalid(INVALID_LINK))
      else if p.token == "" then (db, cache, Invalid(MISSING_TOKEN))
      else if !config.pepper then (db, cache, Invalid(SERVER_ERROR))
      else
        var found := FindLink(db, website.value, p.token);
        if found.None? then (db, cache, Invalid(INVALID_LINK))
        else
          var seen := ReadLink(db, website.value, found.value);
          var denied := DeniedReason(PolicyOf(seen.linkId, seen.link), now);
          if denied.Some? then (db, cache, Invalid(denied.value))
          else if SelectPlayable(seen.videos, config.canSign) == [] then (db, cache, Invalid(NO_VIDEOS))
          else
            var (after, claimed) := if p.origin == Resume then (db, true)
                else Claim(db, PolicyOf(seen.linkId, seen.link), now);
            if !claimed then (after, cache, Invalid(LatestReason(after, seen.linkId, now)))
            else (after, WriteCache(cache, KeyOf(p), seen, config, now), AnswerCold(after, seen, config, p.origin))
  }

  /** The cached entry is there, is not denied, has a playable video, and its claim succeeds. */
  predicate ServesWarm(db: Db, cache: Cache, config: Config, p: Params, now: Time) {
    && MayUseCache(p) && KeyOf(p) in cache
    && var entry := cache[KeyOf(p)];
       DeniedReason(entry.policy, now).None? && SelectPlayable(entry.videos, config.canSign) != []
           && Claim(db, entry.policy, now).1
  }

  /**
   resolvePublicWatch: a usable cached entry first; a denied or failing one is dropped and resolved cold.
   Each of the two paths reads the clock for itself.
   */
  function Resolve(db: Db, cache: Cache, config: Config, p: Params, now: Time, again: Time): (Db, Cache, Response) {
    if ServesWarm(db, cache, config, p, now) then
      var after := Claim(db, cache[KeyOf(p)].policy, now).0;
      (after, cache, AnswerWarm(after, cache[KeyOf(p)], config, p.origin))
    else
      Cold(db, if MayUseCache(p) then cache - {KeyOf(p)} else cache, config, p, again)
  }

  /** Who gets in when nothing interrupts, and what it costs: one view, or none for a resumed session. */
  lemma ColdAdmitsIff(db: Db, cache: Cache, config: Config, p: Params, now: Time)
    ensures var (after, _, response) := Cold(db, cache, config, p, now);
            && (response.Valid? <==>
                  && config.pepper && p.host.Some? && p.token != ""
                  && FindWebsite(db, p.host.value).Some?
                  && var website := FindWebsite(db, p.host.value).value;
                     && FindLink(db, website, p.token).Some?
                     && var link := db.links[FindLink(db, website, p.token).value];
                        && link.status == ACTIVE && Unexpired(link.expiresAt, now)
                        && (link.maxViews.Some? ==> link.currentViews < link.maxViews.value)
                        && SelectPlayable(AssignedVideos(db, link.members, website), config.canSign) != [])
            && (response.Invalid? ==> after == db)
            && (response.Valid? ==>
                  && response.linkId in db.links
                  && after == if p.origin == Resume then db else CountView(db, response.linkId))
            && (response.Valid? ==> (response.mediaGrants <==> db.links[response.linkId].maxViews.Some?))
  {
  }

  /** A refusal names the first fault there is: what comes before it in the order of checks is in order. */
  lemma RefusalsNameTheFirstFault(db: Db, cache: Cache, config: Config, p: Params, now: Time)
    requires Cold(db, cache, config, p, now).2.Invalid?
    ensures var reason := Cold(db, cache, config, p, now).2.reason;
            && (reason == MISSING_HOST <==> p.host.None?)
            && (reason == MISSING_TOKEN ==> p.host.Some? && FindWebsite(db, p.host.value).Some? && p.token == "")
            && (reason == SERVER_ERROR ==> !config.pepper && p.token != "")
            && (reason in {EXPIRED_LINK, VIEW_LIMIT_REACHED, NO_VIDEOS} ==>
                  && p.host.Some? && FindWebsite(db, p.host.value).Some?
                  && var website := FindWebsite(db, p.host.value).value;
                     && FindLink(db, website, p.token).Some?
                     && var link := db.links[FindLink(db, website, p.token).value];
                        && link.status == ACTIVE
                        && (reason == EXPIRED_LINK <==> !Unexpired(link.expiresAt, now))
                        && (reason == VIEW_LIMIT_REACHED <==>
                              Unexpired(link.expiresAt, now) && link.maxViews.Some?
                                  && link.currentViews >= link.maxViews.value)
                        && (reason == NO_VIDEOS ==>
                              SelectPlayable(AssignedVideos(db, link.members, website), config.canSign) == []))
            && (reason == INVALID_LINK && p.host.Some? && FindWebsite(db, p.host.value).Some? ==>
                  && var website := FindWebsite(db, p.host.value).value;
                     FindLink(db, website, p.token).None?
                         || db.links[FindLink(db, website, p.token).value].status != ACTIVE)
  {
  }

  // ---------------------------------------------------------------- the cache is transparent

  /** What the entry says is what the uncached path would read now; view counters may differ. */
  predicate Faithful(db: Db, key: Key, entry: Entry, canSign: bool) {
    && FindWebsite(db, key.host) == Some(entry.websiteId)
    && FindLink(db, entry.websiteId, key.token) == Some(entry.policy.linkId)
    && entry.policy.linkId in db.links
    && var seen := ReadLink(db, entry.websiteId, entry.policy.linkId);
       && entry.policy == PolicyOf(seen.linkId, seen.link).(currentViews := entry.policy.currentViews)
       && entry.policy.maxViews.None?
       && entry.videos == SelectPlayable(seen.videos, canSign)
  }

  lemma {:induction false} SelectionIsIdempotent(videos: seq<Video>, canSign: bool)
    ensures SelectPlayable(SelectPlayable(videos, canSign), canSign) == SelectPlayable(videos, canSign)
  {
    if videos != [] { SelectionIsIdempotent(videos[1..], canSign); }
  }

  /** Selected when it was cached and selected again when it is served. */
  lemma {:induction false} SelectionsCompose(videos: seq<Video>, a: bool, b: bool)
    ensures SelectPlayable(SelectPlayable(videos, a), b) == SelectPlayable(videos, a && b)
  {
    if videos != [] { SelectionsCompose(videos[1..], a, b); }
  }

  lemma {:induction false} AssignedVideosIgnoreLinks(db: Db, links: map<Id, Link>, members: seq<Id>, websiteId: Id)
    ensures AssignedVideos(db.(links := links), members, websiteId) == AssignedVideos(db, members, websiteId)
  {
    if members != [] { AssignedVideosIgnoreLinks(db, links, members[1..], websiteId); }
  }

  /**
   With a faithful entry a request has the same answer and the same effect on the database as one that
   never looked at the cache: at the first clock reading if the entry serves it, else at the second.
   */
  lemma CacheIsTransparent(db: Db, cache: Cache, config: Config, p: Params, now: Time, again: Time)
    requires config.pepper
    requires MayUseCache(p) && KeyOf(p) in cache ==> Faithful(db, KeyOf(p), cache[KeyOf(p)], config.canSign)
    ensures var at := if ServesWarm(db, cache, config, p, now) then now else again;
            && Resolve(db, cache, config, p, now, again).0 == Cold(db, map[], config, p, at).0
            && Resolve(db, cache, config, p, now, again).2 == Cold(db, map[], config, p, at).2
  {
    if MayUseCache(p) && KeyOf(p) in cache {
      var entry := cache[KeyOf(p)];
      SelectionIsIdempotent(ReadLink(db, entry.websiteId, entry.policy.linkId).videos, config.canSign);
    }
  }

  /** What the uncached path writes is faithful to the database it leaves behind, and unbudgeted. */
  lemma ColdWritesFaithfully(db: Db, config: Config, p: Params, now: Time)
    ensures var (after, cache, response) := Cold(db, map[], config, p, now);
            forall key :: key in cache ==>
              && p.host.Some? && key == KeyOf(p) && response.Valid?
              && Faithful(after, key, cache[key], config.canSign) && cache[key].policy.maxViews.None?
  {
    var (after, cache, response) := Cold(db, map[], config, p, now);
    if cache != map[] {
      var website := FindWebsite(db, p.host.value).value;
      var l := FindLink(db, website, p.token).value;
      AssignedVideosIgnoreLinks(db, after.links, db.links[l].members, website);
      assert db.(links := after.links) == after;
    }
  }

  /** Counting views elsewhere leaves an entry as faithful as it was. */
  lemma CountingKeepsFaithful(db: Db, l: Id, key: Key, entry: Entry, canSign: bool)
    requires l in db.links && Faithful(db, key, entry, canSign)
    ensures Faithful(CountView(db, l), key, entry, canSign)
  {
    AssignedVideosIgnoreLinks(db, CountView(db, l).links, db.links[entry.policy.linkId].members, entry.websiteId);
  }

  /** Any number of views counted meanwhile, of this link or of others. */
  function CountViews(db: Db, views: seq<Id>): Db {
    if views == [] then db
    else
      var before := CountViews(db, views[..|views| - 1]);
      if views[|views| - 1] in before.links then CountView(before, views[|views| - 1]) else before
  }

  lemma {:induction false} CountedViewsKeepFaithful(db: Db, views: seq<Id>, key: Key, entry: Entry, canSign: bool)
    requires Faithful(db, key, entry, canSign)
    ensures Faithful(CountViews(db, views), key, entry, canSign)
  {
    if views != [] {
      var before := CountViews(db, views[..|views| - 1]);
      CountedViewsKeepFaithful(db, views[..|views| - 1], key, entry, canSign);
      if views[|views| - 1] in before.links { CountingKeepsFaithful(before, views[|views| - 1], key, entry, canSign); }
    }
  }

  /**
   A warm answer is the cold answer, however many views were counted since the entry was written: same
   link, same videos, no media grant in either, and the same claim.
   */
  lemma WarmAgreesWithCold(db: Db, config: Config, first: Params, t: Time, views: seq<Id>, p: Params, now: Time,
                           again: Time)
    requires config.pepper && MayUseCache(p)
    requires first.host.Some? && KeyOf(first) == KeyOf(p)
    requires KeyOf(p) in Cold(db, map[], config, first, t).1
    ensures var (after, cache, _) := Cold(db, map[], config, first, t);
            var later := CountViews(after, views);
            var warm := Resolve(later, cache, config, p, now, again);
            var cold := Cold(later, map[], config, p, if ServesWarm(later, cache, config, p, now) then now else again);
            && warm.2 == cold.2 && warm.0 == cold.0
            && (warm.2.Valid? ==> !warm.2.mediaGrants)
  {
    ColdWritesFaithfully(db, config, first, t);
    var (after, cache, _) := Cold(db, map[], config, first, t);
    var later, entry := CountViews(after, views), cache[KeyOf(p)];
    CountedViewsKeepFaithful(after, views, KeyOf(p), entry, config.canSign);
    CacheIsTransparent(later, cache, config, p, now, again);
    SelectionIsIdempotent(ReadLink(later, entry.websiteId, entry.policy.linkId).videos, config.canSign);
  }

  /** On an entry its own cold request left behind, the cache serves exactly while the link is usable. */
  lemma WarmServesIff(db: Db, config: Config, first: Params, t: Time, views: seq<Id>, p: Params, now: Time)
    requires MayUseCache(p) && first.host.Some? && KeyOf(first) == KeyOf(p)
    requires KeyOf(p) in Cold(db, map[], config, first, t).1
    ensures var (after, cache, _) := Cold(db, map[], config, first, t);
            ServesWarm(CountViews(after, views), cache, config, p, now) <==>
                Unexpired(cache[KeyOf(p)].policy.expiresAt, now)
  {
    ColdWritesFaithfully(db, config, first, t);
    var (after, cache, _) := Cold(db, map[], config, first, t);
    var later, entry := CountViews(after, views), cache[KeyOf(p)];
    CountedViewsKeepFaithful(after, views, KeyOf(p), entry, config.canSign);
    var website := FindWebsite(db, first.host.value).value;
    var seen := ReadLink(db, website, FindLink(db, website, first.token).value);
    SelectionIsIdempotent(seen.videos, config.canSign);
  }

  // ---------------------------------------------------------------- which videos are shown

  /**
   The link's k-th member may be played: the video is there, assigned to the website and READY, and its
   source can be served: a well-formed Bunny id while signing is possible, or another servable source.
   */
  predicate MayPlay(db: Db, websiteId: Id, members: seq<Id>, canSign: bool, k: nat)
    requires k < |members|
  {
    && members[k] in db.videos && (websiteId, members[k]) in db.assignments
    && db.videos[members[k]].ready
    && match db.videos[members[k]].source
       case BunnyEmbed(_) => canSign
       case MalformedBunny => false
       case Other(servable) => servable
  }

  /** `at` says which members these videos are: in member order, all that may be played and no others. */
  ghost predicate Picks(db: Db, websiteId: Id, members: seq<Id>, canSign: bool, videos: seq<Video>, at: seq<nat>) {
    && |at| == |videos|
    && (forall i :: 0 <= i < |at| ==>
          at[i] < |members| && members[at[i]] in db.videos && videos[i] == db.videos[members[at[i]]])
    && (forall i, j :: 0 <= i < j < |at| ==> at[i] < at[j])
    && (forall k :: 0 <= k < |members| ==> (k in at <==> MayPlay(db, websiteId, members, canSign, k)))
  }

  function Shifted(at: seq<nat>): seq<nat> {
    seq(|at|, i requires 0 <= i < |at| => at[i] + 1)
  }

  lemma ShiftedHas(at: seq<nat>, k: nat)
    ensures k in Shifted(at) <==> k > 0 && k - 1 in at
  {
    if k > 0 && k - 1 in at {
      var i :| 0 <= i < |at| && at[i] == k - 1;
      assert Shifted(at)[i] == k;
    }
    if k in Shifted(at) {
      var i :| 0 <= i < |at| && Shifted(at)[i] == k;
      assert at[i] == k - 1;
    }
  }

  /** What the other members contribute, seen from the whole list. */
  lemma PicksOfTheRest(db: Db, websiteId: Id, members: seq<Id>, canSign: bool, videos: seq<Video>, at: seq<nat>)
    requires members != [] && Picks(db, websiteId, members[1..], canSign, videos, at)
    ensures forall i :: 0 <= i < |at| ==>
              0 < Shifted(at)[i] < |members| && members[Shifted(at)[i]] in db.videos
              && videos[i] == db.videos[members[Shifted(at)[i]]]
    ensures forall k :: 1 <= k < |members| ==> (k in Shifted(at) <==> MayPlay(db, websiteId, members, canSign, k))
    ensures 0 !in Shifted(at)
  {
    forall k | 1 <= k < |members|
      ensures k in Shifted(at) <==> MayPlay(db, websiteId, members, canSign, k)
    {
      ShiftedHas(at, k);
      assert members[1..][k - 1] == members[k];
      assert MayPlay(db, websiteId, members[1..], canSign, k - 1) == MayPlay(db, websiteId, members, canSign, k);
    }
    ShiftedHas(at, 0);
  }

  lemma {:induction false} SelectionPicks(db: Db, websiteId: Id, members: seq<Id>, canSign: bool) returns (at: seq<nat>)
    ensures Picks(db, websiteId, members, canSign, SelectPlayable(AssignedVideos(db, members, websiteId), canSign), at)
  {
    if members == [] {
      at := [];
    } else {
      var rest := SelectionPicks(db, websiteId, members[1..], canSign);
      var videos := SelectPlayable(AssignedVideos(db, members[1..], websiteId), canSign);
      PicksOfTheRest(db, websiteId, members, canSign, videos, rest);
      FirstMember(db, websiteId, members, canSign);
      at := PickFirst(db, websiteId, members, canSign, videos, rest);
    }
  }

  lemma PickFirst(db: Db, websiteId: Id, members: seq<Id>, canSign: bool, videos: seq<Video>, rest: seq<nat>)
    returns (at: seq<nat>)
    requires members != [] && Picks(db, websiteId, members[1..], canSign, videos, rest)
    ensures var picked := if MayPlay(db, websiteId, members, canSign, 0) then [db.videos[members[0]]] + videos
              else videos;
            Picks(db, websiteId, members, canSign, picked, at)
  {
    PicksOfTheRest(db, websiteId, members, canSign, videos, rest);
    at := Shifted(rest);
    if MayPlay(db, websiteId, members, canSign, 0) {
      at := [0] + Shifted(rest);
      var picked := [db.videos[members[0]]] + videos;
      assert forall k :: k in at <==> k == 0 || k in Shifted(rest);
      forall i | 0 <= i < |at|
        ensures at[i] < |members| && members[at[i]] in db.videos && picked[i] == db.videos[members[at[i]]]
      {
        if i > 0 { assert at[i] == Shifted(rest)[i - 1] && picked[i] == videos[i - 1]; }
      }
      forall i, j | 0 <= i < j < |at|
        ensures at[i] < at[j]
      {
        assert at[j] == rest[j - 1] + 1;
        if i > 0 { assert at[i] == rest[i - 1] + 1; }
      }
    }
  }

  lemma FirstMember(db: Db, websiteId: Id, members: seq<Id>, canSign: bool)
    requires members != []
    ensures var rest := SelectPlayable(AssignedVideos(db, members[1..], websiteId), canSign);
            SelectPlayable(AssignedVideos(db, members, websiteId), canSign) ==
              if MayPlay(db, websiteId, members, canSign, 0) then [db.videos[members[0]]] + rest else rest
  {
    var rest := AssignedVideos(db, members[1..], websiteId);
    if members[0] in db.videos && (websiteId, members[0]) in db.assignments {
      assert AssignedVideos(db, members, websiteId) == [db.videos[members[0]]] + rest;
      assert ([db.videos[members[0]]] + rest)[1..] == rest;
    }
  }

  /** A token for the embed is minted: the current row is READY, not missing at Bunny, and holds the same Bunny id. */
  predicate MayEmbed(db: Db, v: Video) {
    && v.source.BunnyEmbed? && v.id in db.videos
    && db.videos[v.id].ready && !db.videos[v.id].remoteMissing && db.videos[v.id].source == v.source
  }

  function VideosOf(shown: seq<Shown>): seq<Video> {
    seq(|shown|, i requires 0 <= i < |shown| => shown[i].video)
  }

  /** What a response shows, of a link as `read` had it, with embeds as `current` allows them. */
  ghost predicate ShowsExactly(read: Db, current: Db, websiteId: Id, members: seq<Id>, canSign: bool,
                               shown: seq<Shown>)
  {
    && (exists at :: Picks(read, websiteId, members, canSign, VideosOf(shown), at))
    && forall i :: 0 <= i < |shown| ==> (shown[i].signed <==> MayEmbed(current, shown[i].video))
  }

  lemma PresentedSelection(read: Db, current: Db, websiteId: Id, members: seq<Id>, canSign: bool)
    ensures ShowsExactly(read, current, websiteId, members, canSign,
                         Present(current, SelectPlayable(AssignedVideos(read, members, websiteId), canSign)))
    ensures SelectPlayable(AssignedVideos(read, members, websiteId), canSign) != [] <==>
              SomeMayPlay(read, websiteId, members, canSign)
  {
    var videos := SelectPlayable(AssignedVideos(read, members, websiteId), canSign);
    var at := SelectionPicks(read, websiteId, members, canSign);
    assert VideosOf(Present(current, videos)) == videos;
    if videos != [] { assert at[0] in at; }
  }

  predicate SomeMayPlay(db: Db, websiteId: Id, members: seq<Id>, canSign: bool) {
    exists k :: 0 <= k < |members| && MayPlay(db, websiteId, members, canSign, k)
  }

  /** The host's website, if host and website are active. */
  predicate ServedBy(db: Db, host: string, websiteId: Id) {
    host in db.hosts && host in db.activeHosts && db.hosts[host] == websiteId && websiteId in db.activeWebsites
  }

  /** The link a token names on this website: by alias if there is one, else by token. */
  predicate Names(db: Db, websiteId: Id, token: string, l: Id) {
    && l in db.links && db.links[l].websiteId == websiteId
    && ((token in db.byAlias && db.byAlias[token] == l)
        || (token in db.byToken && db.byToken[token] == l
            && !(token in db.byAlias && db.byAlias[token] in db.links
                 && db.links[db.byAlias[token]].websiteId == websiteId)))
  }

  /** The request gets as far as the link's videos: a served host, a token, a pepper, a link that is open. */
  predicate Reaches(db: Db, config: Config, p: Params, now: Time, websiteId: Id, l: Id) {
    && p.host.Some? && ServedBy(db, p.host.value, websiteId) && p.token != "" && config.pepper
    && Names(db, websiteId, p.token, l)
    && var link := db.links[l];
       && link.status == ACTIVE && (link.expiresAt.Some? ==> link.expiresAt.value > now)
       && (link.maxViews.Some? ==> link.currentViews < link.maxViews.value)
  }

  lemma NamedLink(db: Db, websiteId: Id, token: string, l: Id)
    ensures Names(db, websiteId, token, l) <==> FindLink(db, websiteId, token) == Some(l)
  {
  }

  /** The uncached resolver from the link on. */
  lemma ColdFromTheLink(db: Db, cache: Cache, config: Config, p: Params, now: Time, websiteId: Id, l: Id)
    requires Reaches(db, config, p, now, websiteId, l)
    ensures var seen := ReadLink(db, websiteId, l);
            var after := if p.origin == Resume then db else CountView(db, l);
            var (last, _, response) := Cold(db, cache, config, p, now);
            if SelectPlayable(seen.videos, config.canSign) == [] then last == db && response == Invalid(NO_VIDEOS)
            else last == after && response == AnswerCold(after, seen, config, p.origin)
  {
    NamedLink(db, websiteId, p.token, l);
  }

  /**
   The uncached answer: valid exactly if the request reaches a link of which some member may be played, and
   then it shows just those, counts one view of the link and no other, or none for a resume, and grants
   media exactly on a budgeted link. NO_VIDEOS exactly if the request gets there and no member may be played.
   */
  lemma ColdShowsExactly(db: Db, cache: Cache, config: Config, p: Params, now: Time, websiteId: Id, l: Id)
    requires Reaches(db, config, p, now, websiteId, l)
    ensures var (after, _, response) := Cold(db, cache, config, p, now);
            var link := db.links[l];
            var playable := SomeMayPlay(db, websiteId, link.members, config.canSign);
            && (response == Invalid(NO_VIDEOS) <==> !playable)
            && (!playable ==> after == db)
            && (playable ==>
                  && response.Valid? && response.websiteId == websiteId && response.linkId == l
                  && ShowsExactly(db, after, websiteId, link.members, config.canSign, response.videos)
                  && after == db.(links := if p.origin == Resume then db.links
                                           else db.links[l := link.(currentViews := link.currentViews + 1)])
                  && (response.mediaGrants <==> link.maxViews.Some?)
                  && (response.aliasFree <==> p.origin != Watch)
                  && (response.resumeGrant <==> p.origin == Compat && link.maxViews.None? && link.expiresAt.None?))
  {
    ColdFromTheLink(db, cache, config, p, now, websiteId, l);
    var after := if p.origin == Resume then db else CountView(db, l);
    PresentedSelection(db, after, websiteId, db.links[l].members, config.canSign);
  }

  /** Whoever does not get there is refused and costs nothing. */
  lemma ColdRefusesTheRest(db: Db, cache: Cache, config: Config, p: Params, now: Time)
    requires forall websiteId, l :: !Reaches(db, config, p, now, websiteId, l)
    ensures var (after, kept, response) := Cold(db, cache, config, p, now);
            after == db && kept == cache && response.Invalid? && response.reason != NO_VIDEOS
  {
    if p.host.Some? && FindWebsite(db, p.host.value).Some? {
      var website := FindWebsite(db, p.host.value).value;
      if FindLink(db, website, p.token).Some? {
        NamedLink(db, website, p.token, FindLink(db, website, p.token).value);
        assert !Reaches(db, config, p, now, website, FindLink(db, website, p.token).value);
      }
    }
  }

  /** The same of a warm answer, however many views were counted since its entry was written. */
  lemma WarmShowsExactly(db: Db, config: Config, first: Params, t: Time, views: seq<Id>, p: Params, now: Time,
                         again: Time, websiteId: Id, l: Id)
    requires config.pepper && MayUseCache(p) && first.host.Some? && KeyOf(first) == KeyOf(p)
    requires KeyOf(p) in Cold(db, map[], config, first, t).1
    requires var (after, cache, _) := Cold(db, map[], config, first, t);
             var later := CountViews(after, views);
             ServesWarm(later, cache, config, p, now) && Reaches(later, config, p, now, websiteId, l)
    ensures var (after, cache, _) := Cold(db, map[], config, first, t);
            var later := CountViews(after, views);
            var (last, _, response) := Resolve(later, cache, config, p, now, again);
            && response.Valid? && response.linkId == l
            && ShowsExactly(later, last, websiteId, later.links[l].members, config.canSign, response.videos)
  {
    WarmAgreesWithCold(db, config, first, t, views, p, now, again);
    var (after, cache, _) := Cold(db, map[], config, first, t);
    var later := CountViews(after, views);
    ColdShowsExactly(later, map[], config, p, now, websiteId, l);
    assert Resolve(later, cache, config, p, now, again).2.Valid?;
  }

  // ---------------------------------------------------------------- what is cached, and when the cache answers

  lemma {:induction false} NothingSelectedIff(videos: seq<Video>, canSign: bool)
    ensures SelectPlayable(videos, canSign) == [] <==>
              forall v :: v in videos ==>
                !v.ready || v.source.MalformedBunny? || v.source == Other(false) || (v.source.BunnyEmbed? && !canSign)
  {
    if videos != [] { NothingSelectedIff(videos[1..], canSign); }
  }

  /**
   The uncached resolver leaves an entry exactly for a link without a view limit, with more than the time to
   live left until it expires, of which some member may be played. The entry holds the link's policy and those
   members.
   */
  lemma ColdCachesIff(db: Db, cache: Cache, config: Config, p: Params, now: Time, websiteId: Id, l: Id)
    requires Reaches(db, config, p, now, websiteId, l)
    ensures var link, kept := db.links[l], Cold(db, cache, config, p, now).1;
            if && SomeMayPlay(db, websiteId, link.members, config.canSign) && link.maxViews == None
               && (link.expiresAt == None || link.expiresAt.value > now + 1000 * config.ttlSeconds)
            then
              && KeyOf(p) in kept
              && kept == cache[KeyOf(p) := Entry(websiteId, Policy(l, ACTIVE, link.expiresAt, None, link.currentViews),
                                                 kept[KeyOf(p)].videos)]
              && exists at :: Picks(db, websiteId, link.members, config.canSign, kept[KeyOf(p)].videos, at)
            else kept == cache
  {
    NamedLink(db, websiteId, p.token, l);
    var at := SelectionPicks(db, websiteId, db.links[l].members, config.canSign);
    PresentedSelection(db, db, websiteId, db.links[l].members, config.canSign);
  }

  /** The entry itself says that its link is open, and it still holds something that can be served. */
  predicate EntryIsOpen(entry: Entry, canSign: bool, now: Time) {
    && entry.policy.status == ACTIVE
    && (entry.policy.expiresAt == None || entry.policy.expiresAt.value > now)
    && (entry.policy.maxViews == None || entry.policy.currentViews < entry.policy.maxViews.value)
    && exists v :: v in entry.videos && v.ready && !v.source.MalformedBunny? && v.source != Other(false)
                   && (v.source.BunnyEmbed? ==> canSign)
  }

  /** The link's row, as it is now, admits one more view under the limit that was cached. */
  predicate RowAdmits(db: Db, policy: Policy, now: Time) {
    && policy.linkId in db.links
    && var link := db.links[policy.linkId];
       && link.status == ACTIVE
       && (link.expiresAt == None || link.expiresAt.value > now)
       && (policy.maxViews == None || link.currentViews < policy.maxViews.value)
  }

  /**
   The cache answers a watch request exactly if it holds an entry for its key that is open, and the link's
   row admits the view, which is then counted. Every other request is resolved without the cache, and a watch
   request's unusable entry is dropped first.
   */
  lemma CacheAnswersIff(db: Db, cache: Cache, config: Config, p: Params, now: Time, again: Time)
    ensures var watch := p.origin == Watch && p.host.Some? && p.token != "";
            var (after, kept, response) := Resolve(db, cache, config, p, now, again);
            if watch && KeyOf(p) in cache && EntryIsOpen(cache[KeyOf(p)], config.canSign, now)
               && RowAdmits(db, cache[KeyOf(p)].policy, now)
            then
              && kept == cache && response.Valid?
              && var entry := cache[KeyOf(p)];
                 var link := db.links[entry.policy.linkId];
                 && response.websiteId == entry.websiteId && response.linkId == entry.policy.linkId
                 && !response.mediaGrants && !response.aliasFree && !response.resumeGrant
                 && after == db.(links := db.links[
                               entry.policy.linkId := link.(currentViews := link.currentViews + 1)])
            else
              (after, kept, response) == Cold(db, if watch then cache - {KeyOf(p)} else cache, config, p, again)
  {
    if MayUseCache(p) && KeyOf(p) in cache {
      NothingSelectedIff(cache[KeyOf(p)].videos, config.canSign);
      assert (exists v :: v in cache[KeyOf(p)].videos && v.ready && !v.source.MalformedBunny?
                          && v.source != Other(false) && (v.source.BunnyEmbed? ==> config.canSign))
             <==> SelectPlayable(cache[KeyOf(p)].videos, config.canSign) != [];
      assert ClaimMatches(db, cache[KeyOf(p)].policy, now) <==> RowAdmits(db, cache[KeyOf(p)].policy, now);
      assert EntryIsOpen(cache[KeyOf(p)], config.canSign, now) && RowAdmits(db, cache[KeyOf(p)].policy, now)
             <==> ServesWarm(db, cache, config, p, now);
    }
  }
}
