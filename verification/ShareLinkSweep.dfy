/**
 The offline sweep that re-activates share links darkened by a disabled video: what it concludes about
 one link, how exactly it recognises purged members, and the paging loop over a table it changes.
 */
module ShareLinkSweep {
  import opened Wrappers
  import opened ShareLinks
  import opened Paging

  type Time = int

  /** The facts about a member's video that the classification asks for. */
  datatype Video = Video(ready: bool, playableAsset: bool, bunnyHealthy: bool, activeOn: set<Id>)

  /** `video` is absent when the membership row refers to a video that no longer resolves. */
  datatype Member = Member(sortOrder: int, videoId: Id, video: Option<Video>)

  datatype Link = Link(
    websiteId: Id,
    status: LinkStatus,
    expiresAt: Option<Time>,
    maxViews: Option<nat>,
    currentViews: nat,
    members: seq<Member>)

  datatype SkipReason =
    | NO_MEMBERS | MEMBER_MISSING | MEMBERSHIP_GAP | MEMBER_NOT_READY | MEMBER_NOT_PLAYABLE
    | MEMBER_BUNNY_REMOTE_MISSING
    | MEMBER_NOT_ASSIGNED | MEMBERSHIP_SHRANK | PROVENANCE_MISSING | PROVENANCE_MALFORMED

  datatype Provenance = CANONICAL | CREATED(recordedVideoCount: nat) | MISSING | MALFORMED

  datatype Classification =
    | Skipped(reason: SkipReason)
    | RestorableButExpired | RestorableButViewLimitReached | RestorableAndCurrentlyUsable

  // ---------------------------------------------------------------- one link

  function SortOrders(members: seq<Member>): set<int> {
    set m | m in members :: m.sortOrder
  }

  /** As the code tests it: as many different values as members, all of them in range. */
  predicate ContiguousFromZero(members: seq<Member>) {
    |SortOrders(members)| == |members| && forall v :: v in SortOrders(members) ==> 0 <= v < |members|
  }

  function MembershipProvenance(memberCount: nat, provenance: Provenance): Option<SkipReason> {
    match provenance
    case MISSING => Some(PROVENANCE_MISSING)
    case MALFORMED => Some(PROVENANCE_MALFORMED)
    case CANONICAL => if memberCount == 1 then None else Some(PROVENANCE_MALFORMED)
    case CREATED(recorded) =>
      if memberCount < recorded then Some(MEMBERSHIP_SHRANK)
      else if memberCount > recorded then Some(PROVENANCE_MALFORMED)
      else None
  }

  /** Array.prototype.some */
  predicate AnyMember(members: seq<Member>, test: Member -> bool) {
    members != [] && (test(members[0]) || AnyMember(members[1..], test))
  }

  lemma {:induction false} AnyMemberIff(members: seq<Member>, test: Member -> bool)
    ensures AnyMember(members, test) <==> exists m :: m in members && test(m)
  {
    if members != [] {
      AnyMemberIff(members[1..], test);
      assert members == [members[0]] + members[1..];
    }
  }

  predicate Lacks(m: Member, fact: Video -> bool) { m.video.None? || !fact(m.video.value) }

  /** The structural checks on membership, in order. */
  function MembershipFinding(members: seq<Member>, provenance: Provenance): Option<SkipReason> {
    if members == [] then Some(NO_MEMBERS)
    else if AnyMember(members, (m: Member) => m.video.None?) then Some(MEMBER_MISSING)
    else if !ContiguousFromZero(members) then Some(MEMBERSHIP_GAP)
    else MembershipProvenance(|members|, provenance)
  }

  function ClassifyShareLink(link: Link, provenance: Provenance, now: Time): Classification {
    var finding := MembershipFinding(link.members, provenance);
    if finding.Some? then Skipped(finding.value)
    else if AnyMember(link.members, (m: Member) => Lacks(m, (v: Video) => v.ready)) then Skipped(MEMBER_NOT_READY)
    else if AnyMember(link.members, (m: Member) => Lacks(m, (v: Video) => v.playableAsset))
        then Skipped(MEMBER_NOT_PLAYABLE)
    else if AnyMember(link.members, (m: Member) => Lacks(m, (v: Video) => v.bunnyHealthy))
        then Skipped(MEMBER_BUNNY_REMOTE_MISSING)
    else if AnyMember(link.members, (m: Member) => Lacks(m, (v: Video) => link.websiteId in v.activeOn))
        then Skipped(MEMBER_NOT_ASSIGNED)
    else if link.expiresAt.Some? && link.expiresAt.value <= now then RestorableButExpired
    else if link.maxViews.Some? && link.currentViews >= link.maxViews.value then RestorableButViewLimitReached
    else RestorableAndCurrentlyUsable
  }

  /** Every member resolves, is READY, has an asset, is not missing at Bunny and is assigned to the link's website. */
  ghost predicate MembersServable(link: Link) {
    forall m :: m in link.members ==>
      && m.video.Some? && m.video.value.ready && m.video.value.playableAsset && m.video.value.bunnyHealthy
      && link.websiteId in m.video.value.activeOn
  }

  /**
   Restorable means: membership intact and every member servable; the three kinds differ in expiry and
   budget only.
   */
  lemma RestorableIff(link: Link, provenance: Provenance, now: Time)
    ensures var c := ClassifyShareLink(link, provenance, now);
            var expired := link.expiresAt.Some? && link.expiresAt.value <= now;
            var usedUp := link.maxViews.Some? && link.currentViews >= link.maxViews.value;
            && (!c.Skipped? <==> Intact(link.members, provenance) && MembersServable(link))
            && (c == RestorableButExpired <==> !c.Skipped? && expired)
            && (c == RestorableButViewLimitReached <==> !c.Skipped? && !expired && usedUp)
            && (c == RestorableAndCurrentlyUsable <==> !c.Skipped? && !expired && !usedUp)
  {
    AnyMemberIff(link.members, (m: Member) => m.video.None?);
    AnyMemberIff(link.members, (m: Member) => Lacks(m, (v: Video) => v.ready));
    AnyMemberIff(link.members, (m: Member) => Lacks(m, (v: Video) => v.playableAsset));
    AnyMemberIff(link.members, (m: Member) => Lacks(m, (v: Video) => v.bunnyHealthy));
    AnyMemberIff(link.members, (m: Member) => Lacks(m, (v: Video) => link.websiteId in v.activeOn));
    GaplessIff(link.members);
  }

  // ---------------------------------------------------------------- purges

  /**
   What is left, in any order, of a link created for the videos `created` (different ones, with
   sortOrder 0, 1, ...) after the videos in `purged` were purged.
   */
  ghost predicate Survivors(members: seq<Member>, created: seq<Id>, purged: set<Id>) {
    && (forall i, j :: 0 <= i < j < |created| ==> created[i] != created[j])
    && (forall i, j :: 0 <= i < j < |members| ==> members[i].sortOrder != members[j].sortOrder)
    && (forall m :: m in members ==>
          0 <= m.sortOrder < |created| && m.videoId == created[m.sortOrder] && m.videoId !in purged && m.video.Some?)
    && (forall i :: 0 <= i < |created| && created[i] !in purged ==> i in SortOrders(members))
  }

  /** The numbers 0 to n-1. */
  function Below(n: nat): set<int> {
    if n == 0 then {} else Below(n - 1) + {n - 1}
  }

  lemma {:induction false} BelowHas(n: nat)
    ensures |Below(n)| == n && forall v :: v in Below(n) <==> 0 <= v < n
  {
    if n > 0 { BelowHas(n - 1); }
  }

  lemma {:induction false} SubsetOfSameSize<T>(a: set<T>, b: set<T>)
    requires a <= b
    ensures |a| <= |b| && (|a| == |b| ==> a == b)
  {
    if a != {} {
      var x :| x in a;
      SubsetOfSameSize(a - {x}, b - {x});
      assert a == (a - {x}) + {x} && b == (b - {x}) + {x};
    }
  }

  /** Members with different sortOrders have as many sortOrders as they are. */
  lemma {:induction false} DistinctOrders(members: seq<Member>)
    requires forall i, j :: 0 <= i < j < |members| ==> members[i].sortOrder != members[j].sortOrder
    ensures |SortOrders(members)| == |members|
  {
    if members != [] {
      var rest, last := members[..|members| - 1], members[|members| - 1];
      DistinctOrders(rest);
      assert members == rest + [last];
      assert SortOrders(members) == SortOrders(rest) + {last.sortOrder};
      assert last.sortOrder !in SortOrders(rest);
    }
  }

  /** The test is the pigeonhole principle: it accepts exactly the sortOrders 0 to m-1. */
  lemma ContiguousIff(members: seq<Member>)
    requires forall i, j :: 0 <= i < j < |members| ==> members[i].sortOrder != members[j].sortOrder
    ensures ContiguousFromZero(members) <==> SortOrders(members) == Below(|members|)
  {
    DistinctOrders(members);
    BelowHas(|members|);
    if ContiguousFromZero(members) {
      SubsetOfSameSize(SortOrders(members), Below(|members|));
    }
  }

  /** Without assuming different sortOrders: as many different numbers as members, all in range, are 0 to n-1. */
  lemma GaplessIff(members: seq<Member>)
    ensures ContiguousFromZero(members) <==> SortOrders(members) == Below(|members|)
  {
    BelowHas(|members|);
    if ContiguousFromZero(members) { SubsetOfSameSize(SortOrders(members), Below(|members|)); }
  }

  /** The members are what was created: some, all of them resolving, numbered 0 to n-1, and as many as recorded. */
  ghost predicate Intact(members: seq<Member>, provenance: Provenance) {
    && members != [] && (forall m :: m in members ==> m.video.Some?) && SortOrders(members) == Below(|members|)
    && (provenance == CREATED(|members|) || (provenance == CANONICAL && |members| == 1))
  }

  /** The first of six faults of the membership, by what the rows and the record say. */
  lemma MembershipFaultIs(members: seq<Member>, provenance: Provenance)
    ensures var n, finding := |members|, MembershipFinding(members, provenance);
            var resolved := forall m :: m in members ==> m.video.Some?;
            var numbered := n > 0 && resolved && SortOrders(members) == Below(n);
            && (finding == Some(NO_MEMBERS) <==> n == 0)
            && (finding == Some(MEMBER_MISSING) <==> n > 0 && !resolved)
            && (finding == Some(MEMBERSHIP_GAP) <==> n > 0 && resolved && !numbered)
            && (finding == Some(PROVENANCE_MISSING) <==> numbered && provenance == MISSING)
            && (finding == Some(MEMBERSHIP_SHRANK) <==>
                  numbered && provenance.CREATED? && n < provenance.recordedVideoCount)
            && (finding == Some(PROVENANCE_MALFORMED) <==>
                  numbered && provenance != MISSING && !(provenance.CREATED? && n <= provenance.recordedVideoCount)
                  && !(provenance == CANONICAL && n == 1))
            && (finding == None <==> Intact(members, provenance))
  {
    AnyMemberIff(members, (m: Member) => m.video.None?);
    GaplessIff(members);
  }

  /** A fault of the membership is reported before any of a video; the videos of an intact link are looked at next. */
  lemma MembershipFaultsComeFirst(link: Link, provenance: Provenance, now: Time)
    ensures var c, finding := ClassifyShareLink(link, provenance, now), MembershipFinding(link.members, provenance);
            && (finding.Some? ==> c == Skipped(finding.value))
            && (finding.None? && c.Skipped? ==>
                  c.reason in {MEMBER_NOT_READY, MEMBER_NOT_PLAYABLE, MEMBER_BUNNY_REMOTE_MISSING, MEMBER_NOT_ASSIGNED})
  {
  }

  /** Of an intact link, the first of these four faults that some member's video has is reported. */
  lemma VideoFaultsComeInOrder(link: Link, provenance: Provenance, now: Time)
    requires Intact(link.members, provenance)
    ensures var c := ClassifyShareLink(link, provenance, now);
            var ready := forall m :: m in link.members ==> m.video.value.ready;
            var playable := forall m :: m in link.members ==> m.video.value.playableAsset;
            var healthy := forall m :: m in link.members ==> m.video.value.bunnyHealthy;
            && (c == Skipped(MEMBER_NOT_READY) <==> !ready)
            && (c == Skipped(MEMBER_NOT_PLAYABLE) <==> ready && !playable)
            && (c == Skipped(MEMBER_BUNNY_REMOTE_MISSING) <==> ready && playable && !healthy)
            && (c == Skipped(MEMBER_NOT_ASSIGNED) <==>
                  ready && playable && healthy
                  && exists m :: m in link.members && link.websiteId !in m.video.value.activeOn)
  {
    MembershipFaultIs(link.members, provenance);
    AnyMemberIff(link.members, (m: Member) => Lacks(m, (v: Video) => v.ready));
    AnyMemberIff(link.members, (m: Member) => Lacks(m, (v: Video) => v.playableAsset));
    AnyMemberIff(link.members, (m: Member) => Lacks(m, (v: Video) => v.bunnyHealthy));
    AnyMemberIff(link.members, (m: Member) => Lacks(m, (v: Video) => link.websiteId in v.activeOn));
  }

  /**
   Purge detection is exact, given a truthful count: both checks pass if and only if no member was ever
   purged; a gap is reported if and only if the survivors are not the first few members; a shrinkage,
   if and only if they are the first few but not all; and an empty link, if and only if all are gone.
   */
  lemma PurgeDetectionIsExact(members: seq<Member>, created: seq<Id>, purged: set<Id>)
    requires created != [] && Survivors(members, created, purged)
    ensures var finding := MembershipFinding(members, CREATED(|created|));
            && (finding.None? <==> forall v :: v in created ==> v !in purged)
            && (finding == Some(NO_MEMBERS) <==> forall v :: v in created ==> v in purged)
            && (finding == Some(MEMBERSHIP_GAP) <==> members != [] && SortOrders(members) != Below(|members|))
            && (finding == Some(MEMBERSHIP_SHRANK) <==>
                  members != [] && SortOrders(members) == Below(|members|) && |members| < |created|)
            && (finding.Some? ==> finding.value in {NO_MEMBERS, MEMBERSHIP_GAP, MEMBERSHIP_SHRANK})
  {
    AnyMemberIff(members, (m: Member) => m.video.None?);
    ContiguousIff(members);
    DistinctOrders(members);
    BelowHas(|created|);
    SubsetOfSameSize(SortOrders(members), Below(|created|));
    AllSurviveIff(members, created, purged);
    NoneSurvivesIff(members, created, purged);
  }

  lemma AllSurviveIff(members: seq<Member>, created: seq<Id>, purged: set<Id>)
    requires Survivors(members, created, purged)
    ensures SortOrders(members) == Below(|created|) <==> forall v :: v in created ==> v !in purged
  {
    BelowHas(|created|);
    if SortOrders(members) == Below(|created|) {
      forall v | v in created
        ensures v !in purged
      {
        var i :| 0 <= i < |created| && created[i] == v;
        assert i in SortOrders(members);
      }
    }
    if forall v :: v in created ==> v !in purged {
      forall i | 0 <= i < |created|
        ensures i in SortOrders(members)
      {
        assert created[i] in created;
      }
      assert SortOrders(members) == Below(|created|);
    }
  }

  lemma NoneSurvivesIff(members: seq<Member>, created: seq<Id>, purged: set<Id>)
    requires Survivors(members, created, purged)
    ensures members == [] <==> forall v :: v in created ==> v in purged
  {
    if members == [] {
      forall v | v in created
        ensures v in purged
      {
        var i :| 0 <= i < |created| && created[i] == v;
        assert i !in SortOrders(members);
      }
    } else {
      assert members[0] in members && members[0].videoId in created;
    }
  }

  // ---------------------------------------------------------------- histories

  /** createShareLink: one member per video, sortOrder 0, 1, ... */
  function CreateMembers(created: seq<Id>, video: Video): seq<Member> {
    seq(|created|, i requires 0 <= i < |created| => Member(i, created[i], Some(video)))
  }

  /** A purge deletes the video's membership rows; nothing else ever deletes or changes one. */
  function PurgeMember(members: seq<Member>, v: Id): seq<Member> {
    if members == [] then []
    else
      PurgeMember(members[..|members| - 1], v)
      + if members[|members| - 1].videoId == v then [] else [members[|members| - 1]]
  }

  function AfterPurges(members: seq<Member>, purges: seq<Id>): seq<Member> {
    if purges == [] then members else PurgeMember(AfterPurges(members, purges[..|purges| - 1]), purges[|purges| - 1])
  }

  function Purged(purges: seq<Id>): set<Id> { set v | v in purges }

  lemma {:induction false} PurgeMemberHas(members: seq<Member>, v: Id)
    ensures forall m :: m in PurgeMember(members, v) <==> m in members && m.videoId != v
  {
    if members != [] {
      PurgeMemberHas(members[..|members| - 1], v);
      assert members == members[..|members| - 1] + [members[|members| - 1]];
    }
  }

  ghost predicate DistinctSortOrders(members: seq<Member>) {
    forall i, j :: 0 <= i < j < |members| ==> members[i].sortOrder != members[j].sortOrder
  }

  lemma {:induction false} PurgeKeepsDistinct(members: seq<Member>, v: Id)
    requires DistinctSortOrders(members)
    ensures DistinctSortOrders(PurgeMember(members, v))
  {
    if members != [] {
      var rest, last := members[..|members| - 1], members[|members| - 1];
      PurgeKeepsDistinct(rest, v);
      PurgeMemberHas(rest, v);
      forall m | m in PurgeMember(rest, v)
        ensures m.sortOrder != last.sortOrder
      {
        var i :| 0 <= i < |rest| && rest[i] == m;
        assert members[i] == m;
      }
      assert forall i :: 0 <= i < |PurgeMember(rest, v)| ==> PurgeMember(rest, v)[i] in PurgeMember(rest, v);
    }
  }

  lemma PurgeLeavesSurvivors(members: seq<Member>, created: seq<Id>, purged: set<Id>, v: Id)
    requires Survivors(members, created, purged)
    ensures Survivors(PurgeMember(members, v), created, purged + {v})
  {
    PurgeMemberHas(members, v);
    PurgeKeepsDistinct(members, v);
    forall i | 0 <= i < |created| && created[i] !in purged + {v}
      ensures i in SortOrders(PurgeMember(members, v))
    {
      assert i in SortOrders(members);
      var m :| m in members && m.sortOrder == i;
      assert m in PurgeMember(members, v);
    }
  }

  lemma {:induction false} PurgesLeaveSurvivors(created: seq<Id>, video: Video, purges: seq<Id>)
    requires forall i, j :: 0 <= i < j < |created| ==> created[i] != created[j]
    ensures Survivors(AfterPurges(CreateMembers(created, video), purges), created, Purged(purges))
  {
    if purges == [] {
      var members := CreateMembers(created, video);
      forall i | 0 <= i < |created|
        ensures i in SortOrders(members)
      {
        assert members[i] in members && members[i].sortOrder == i;
      }
    } else {
      var rest, v := purges[..|purges| - 1], purges[|purges| - 1];
      PurgesLeaveSurvivors(created, video, rest);
      PurgeLeavesSurvivors(AfterPurges(CreateMembers(created, video), rest), created, Purged(rest), v);
      assert Purged(purges) == Purged(rest) + {v} by { assert purges == rest + [v]; }
    }
  }

  /** Over every history of purges, the recorded count and the sortOrders tell exactly whether a member was purged. */
  lemma PurgeHistoryIsDetected(created: seq<Id>, video: Video, purges: seq<Id>)
    requires created != [] && forall i, j :: 0 <= i < j < |created| ==> created[i] != created[j]
    ensures MembershipFinding(AfterPurges(CreateMembers(created, video), purges), CREATED(|created|)).None? <==>
              forall v :: v in created ==> v !in purges
  {
    PurgesLeaveSurvivors(created, video, purges);
    PurgeDetectionIsExact(AfterPurges(CreateMembers(created, video), purges), created, Purged(purges));
  }

  // ---------------------------------------------------------------- provenance

  /** A creation record: the link it is about, and the count it holds if that is readable. */
  datatype Creation = Creation(entityId: Option<Id>, recordedVideoCount: Option<nat>)

  function FirstCreation(creations: seq<Creation>, l: Id): Option<Creation> {
    if creations == [] then None
    else if creations[0].entityId == Some(l) then Some(creations[0])
    else FirstCreation(creations[1..], l)
  }

  /** A canonical anchor outranks the record; among records, the earliest counts; without any, nothing is known. */
  function ProvenanceOf(canonicals: set<Id>, creations: seq<Creation>, l: Id): Provenance {
    if l in canonicals then CANONICAL
    else
      match FirstCreation(creations, l)
      case None => MISSING
      case Some(creation) => if creation.recordedVideoCount.Some? then CREATED(creation.recordedVideoCount.value)
          else MALFORMED
  }

  lemma {:induction false} FirstCreationAppend(creations: seq<Creation>, c: Creation, l: Id)
    ensures FirstCreation(creations + [c], l) ==
              if FirstCreation(creations, l).Some? then FirstCreation(creations, l)
              else if c.entityId == Some(l) then Some(c) else None
  {
    if creations == [] {
      assert creations + [c] == [c];
    } else {
      FirstCreationAppend(creations[1..], c, l);
      assert (creations + [c])[1..] == creations[1..] + [c];
    }
  }

  // ---------------------------------------------------------------- the summary

  /** `skipped` counts each reason; `reactivatedIds` lists, in a dry run, what an apply would flip. */
  datatype Summary = Summary(
    examined: nat,
    usable: nat,
    expired: nat,
    viewLimitReached: nat,
    reactivated: nat,
    safeProven: nat,
    ambiguous: nat,
    purgeProven: nat,
    skipped: multiset<SkipReason>,
    reactivatedIds: seq<Id>)

  const EMPTY := Summary(0, 0, 0, 0, 0, 0, 0, 0, multiset{}, [])

  function CountSkip(s: Summary, reason: SkipReason): Summary {
    var counted := s.(examined := s.examined + 1, skipped := s.skipped + multiset{reason});
    match reason
    case MEMBERSHIP_GAP => counted.(purgeProven := s.purgeProven + 1)
    case MEMBERSHIP_SHRANK => counted.(purgeProven := s.purgeProven + 1)
    case PROVENANCE_MISSING => counted.(ambiguous := s.ambiguous + 1)
    case PROVENANCE_MALFORMED => counted.(ambiguous := s.ambiguous + 1)
    case NO_MEMBERS => counted
    case MEMBER_MISSING => counted
    case _ => counted.(safeProven := s.safeProven + 1)
  }

  /** `flipped` says whether the conditional update matched; it is not asked for in a dry run. */
  function Count(s: Summary, l: Id, c: Classification, apply: bool): Summary {
    match c
    case Skipped(reason) => CountSkip(s, reason)
    case RestorableButExpired =>
      s.(examined := s.examined + 1, safeProven := s.safeProven + 1, expired := s.expired + 1)
    case RestorableButViewLimitReached =>
      s.(examined := s.examined + 1, safeProven := s.safeProven + 1, viewLimitReached := s.viewLimitReached + 1)
    case RestorableAndCurrentlyUsable =>
      s.(examined := s.examined + 1, safeProven := s.safeProven + 1, usable := s.usable + 1,
         reactivated := s.reactivated + if apply then 1 else 0, reactivatedIds := s.reactivatedIds + [l])
  }

  /** Everything the classification depends on. */
  datatype Db = Db(order: seq<Id>, links: map<Id, Link>, canonicals: set<Id>, creations: seq<Creation>)

  function ClassifyIn(db: Db, l: Id, now: Time): Classification
    requires l in db.links
  {
    ClassifyShareLink(db.links[l], ProvenanceOf(db.canonicals, db.creations, l), now)
  }

  datatype Verdict = Verdict(linkId: Id, classification: Classification)

  /** What is concluded about each of these links, in order. */
  function Verdicts(db: Db, visited: seq<Id>, now: Time): seq<Verdict>
    requires forall l :: l in visited ==> l in db.links
  {
    if visited == [] then []
    else
      var last := visited[|visited| - 1];
      Verdicts(db, visited[..|visited| - 1], now) + [Verdict(last, ClassifyIn(db, last, now))]
  }

  function Tally(verdicts: seq<Verdict>, apply: bool): Summary {
    if verdicts == [] then EMPTY
    else
      var last := verdicts[|verdicts| - 1];
      Count(Tally(verdicts[..|verdicts| - 1], apply), last.linkId, last.classification, apply)
  }

  predicate Flips(db: Db, visited: seq<Id>, now: Time, l: Id)
    requires forall k :: k in visited ==> k in db.links
  {
    l in visited && ClassifyIn(db, l, now) == RestorableAndCurrentlyUsable
  }

  function FlipAll(db: Db, visited: seq<Id>, now: Time): map<Id, Link>
    requires forall k :: k in visited ==> k in db.links
  {
    map l | l in db.links :: if Flips(db, visited, now, l) then db.links[l].(status := ACTIVE) else db.links[l]
  }

  /** The counters agree with each other. */
  predicate Conserved(s: Summary, apply: bool) {
    && s.examined == s.usable + s.expired + s.viewLimitReached + |s.skipped|
    && VerdictsAddUp(s, s.skipped[NO_MEMBERS] + s.skipped[MEMBER_MISSING],
        s.skipped[MEMBERSHIP_GAP] + s.skipped[MEMBERSHIP_SHRANK])
    && |s.reactivatedIds| == s.usable && s.reactivated == (if apply then s.usable else 0)
  }

  /** Every link but those without a usable membership has a verdict, and `purged` of them have that one. */
  predicate VerdictsAddUp(s: Summary, without: nat, purged: nat) {
    s.safeProven + s.ambiguous + s.purgeProven + without == s.examined && s.purgeProven == purged
  }

  lemma OneMore<T>(m: multiset<T>, x: T, y: T)
    ensures |m + multiset{x}| == |m| + 1 && (m + multiset{x})[y] == m[y] + if y == x then 1 else 0
  {
  }

  lemma SkipAddsUp(s: Summary, reason: SkipReason, without: nat, purged: nat)
    requires VerdictsAddUp(s, without, purged)
    ensures VerdictsAddUp(CountSkip(s, reason),
                          without + (if reason in {NO_MEMBERS, MEMBER_MISSING} then 1 else 0),
                          purged + (if reason in {MEMBERSHIP_GAP, MEMBERSHIP_SHRANK} then 1 else 0))
  {
  }

  lemma SkipIsConserved(s: Summary, reason: SkipReason, apply: bool)
    requires Conserved(s, apply)
    ensures Conserved(CountSkip(s, reason), apply)
  {
    SkipAddsUp(s, reason, s.skipped[NO_MEMBERS] + s.skipped[MEMBER_MISSING],
        s.skipped[MEMBERSHIP_GAP] + s.skipped[MEMBERSHIP_SHRANK]);
    OneMore(s.skipped, reason, NO_MEMBERS);
    OneMore(s.skipped, reason, MEMBER_MISSING);
    OneMore(s.skipped, reason, MEMBERSHIP_GAP);
    OneMore(s.skipped, reason, MEMBERSHIP_SHRANK);
  }

  lemma CountIsConserved(s: Summary, l: Id, c: Classification, apply: bool)
    requires Conserved(s, apply)
    ensures Conserved(Count(s, l, c, apply), apply)
  {
    if c.Skipped? { SkipIsConserved(s, c.reason, apply); }
  }

  /**
   Every link visited is counted once, as restorable in one of three ways or as skipped for one reason;
   the provenance verdicts leave out only links without members or with missing ones.
   */
  lemma {:induction false} TallyIsConserved(verdicts: seq<Verdict>, apply: bool)
    ensures Conserved(Tally(verdicts, apply), apply)
    ensures Tally(verdicts, apply).examined == |verdicts|
  {
    if verdicts != [] {
      var rest, last := verdicts[..|verdicts| - 1], verdicts[|verdicts| - 1];
      TallyIsConserved(rest, apply);
      CountIsConserved(Tally(rest, apply), last.linkId, last.classification, apply);
    }
  }

  function Kinds(verdicts: seq<Verdict>): multiset<Classification> {
    if verdicts == [] then multiset{}
    else Kinds(verdicts[..|verdicts| - 1]) + multiset{verdicts[|verdicts| - 1].classification}
  }

  predicate Counts(s: Summary, kinds: multiset<Classification>) {
    && s.usable == kinds[RestorableAndCurrentlyUsable] && s.expired == kinds[RestorableButExpired]
    && s.viewLimitReached == kinds[RestorableButViewLimitReached]
    && (forall reason: SkipReason :: s.skipped[reason] == kinds[Skipped(reason)])
    && s.purgeProven == s.skipped[MEMBERSHIP_GAP] + s.skipped[MEMBERSHIP_SHRANK]
    && s.ambiguous == s.skipped[PROVENANCE_MISSING] + s.skipped[PROVENANCE_MALFORMED]
  }

  lemma SkipIsCounted(s: Summary, kinds: multiset<Classification>, reason: SkipReason)
    requires Counts(s, kinds)
    ensures Counts(CountSkip(s, reason), kinds + multiset{Skipped(reason)})
  {
  }

  lemma VerdictIsCounted(s: Summary, kinds: multiset<Classification>, l: Id, c: Classification, apply: bool)
    requires Counts(s, kinds)
    ensures Counts(Count(s, l, c, apply), kinds + multiset{c})
  {
    if c.Skipped? { SkipIsCounted(s, kinds, c.reason); }
  }

  /** Each counter is the number of verdicts it names. */
  lemma {:induction false} CountersAreExact(verdicts: seq<Verdict>, apply: bool)
    ensures Counts(Tally(verdicts, apply), Kinds(verdicts))
  {
    if verdicts != [] {
      var rest, last := verdicts[..|verdicts| - 1], verdicts[|verdicts| - 1];
      CountersAreExact(rest, apply);
      VerdictIsCounted(Tally(rest, apply), Kinds(rest), last.linkId, last.classification, apply);
    }
  }

  /** The ids listed are those found usable. */
  lemma {:induction false} ListedIsUsable(verdicts: seq<Verdict>, apply: bool, l: Id)
    ensures l in Tally(verdicts, apply).reactivatedIds <==> Verdict(l, RestorableAndCurrentlyUsable) in verdicts
  {
    if verdicts != [] {
      var rest, last := verdicts[..|verdicts| - 1], verdicts[|verdicts| - 1];
      ListedIsUsable(rest, apply, l);
      assert verdicts == rest + [last];
      assert Tally(verdicts, apply).reactivatedIds ==
               Tally(rest, apply).reactivatedIds
               + if last.classification == RestorableAndCurrentlyUsable then [last.linkId] else [];
    }
  }

  lemma {:induction false} VerdictAt(db: Db, visited: seq<Id>, now: Time, i: nat)
    requires (forall l :: l in visited ==> l in db.links) && i < |visited|
    ensures |Verdicts(db, visited, now)| == |visited|
    ensures Verdicts(db, visited, now)[i] == Verdict(visited[i], ClassifyIn(db, visited[i], now))
  {
    if i < |visited| - 1 {
      VerdictAt(db, visited[..|visited| - 1], now, i);
    } else if |visited| > 1 {
      VerdictAt(db, visited[..|visited| - 1], now, i - 1);
    }
  }

  /** The ids a run lists, dry or not, are exactly those that an apply flips. */
  lemma ListedIsFlipped(db: Db, visited: seq<Id>, now: Time, apply: bool, l: Id)
    requires forall k :: k in visited ==> k in db.links
    ensures l in Tally(Verdicts(db, visited, now), apply).reactivatedIds <==> Flips(db, visited, now, l)
  {
    var verdicts := Verdicts(db, visited, now);
    ListedIsUsable(verdicts, apply, l);
    if Flips(db, visited, now, l) {
      var i :| 0 <= i < |visited| && visited[i] == l;
      VerdictAt(db, visited, now, i);
    }
    if visited != [] { VerdictAt(db, visited, now, 0); }
    if Verdict(l, RestorableAndCurrentlyUsable) in verdicts {
      var i :| 0 <= i < |verdicts| && verdicts[i] == Verdict(l, RestorableAndCurrentlyUsable);
      VerdictAt(db, visited, now, i);
    }
  }

  lemma CountWithoutWriting(s: Summary, l: Id, c: Classification)
    ensures Count(s.(reactivated := 0), l, c, false) == Count(s, l, c, true).(reactivated := 0)
  {
  }

  /** A dry run reports what an apply reports, except that nothing was reactivated. */
  lemma {:induction false} DryRunPredictsApply(verdicts: seq<Verdict>)
    ensures Tally(verdicts, false) == Tally(verdicts, true).(reactivated := 0)
  {
    if verdicts != [] {
      var rest, last := verdicts[..|verdicts| - 1], verdicts[|verdicts| - 1];
      DryRunPredictsApply(rest);
      CountWithoutWriting(Tally(rest, true), last.linkId, last.classification);
    }
  }

  // ---------------------------------------------------------------- the order of the table

  /** ORDER BY id: the table in the order of its primary key. */
  ghost predicate IsOrder(order: seq<Id>, links: map<Id, Link>) {
    Ascending(order) && forall l :: l in order <==> l in links
  }

  predicate Matches(links: map<Id, Link>, l: Id, cursor: Option<Id>) {
    l in links && links[l].status == DISABLED && (cursor.Some? ==> l > cursor.value)
  }

  /** The DISABLED links after the cursor, in order. */
  function DisabledAfter(order: seq<Id>, links: map<Id, Link>, cursor: Option<Id>): seq<Id> {
    if order == [] then []
    else
      var rest := DisabledAfter(order[1..], links, cursor);
      if Matches(links, order[0], cursor) then [order[0]] + rest else rest
  }

  lemma {:induction false} DisabledAfterHas(order: seq<Id>, links: map<Id, Link>, cursor: Option<Id>)
    requires Ascending(order)
    ensures Ascending(DisabledAfter(order, links, cursor))
    ensures forall k :: k in DisabledAfter(order, links, cursor) <==> k in order && Matches(links, k, cursor)
  {
    if order != [] {
      DisabledAfterHas(order[1..], links, cursor);
      var rest := DisabledAfter(order[1..], links, cursor);
      assert order == [order[0]] + order[1..];
      forall i | 0 <= i < |rest|
        ensures order[0] < rest[i]
      {
        assert rest[i] in rest;
        var j :| 0 <= j < |order[1..]| && order[1..][j] == rest[i];
        assert order[j + 1] == rest[i];
      }
    }
  }

  /** findMany: one page of the DISABLED links after the cursor. */
  function Page(order: seq<Id>, links: map<Id, Link>, cursor: Option<Id>, take: nat): seq<Id> {
    Take(DisabledAfter(order, links, cursor), take)
  }

  /** What a whole sweep visits: the DISABLED links in order, as far as the batches reach. */
  function Reach(order: seq<Id>, links: map<Id, Link>, batchSize: nat, maxBatches: nat): seq<Id> {
    Take(DisabledAfter(order, links, None), batchSize * maxBatches)
  }

  /** Rows already visited may have changed status; the page after them is still the next stretch of the start table. */
  lemma PageFollowsCursor(order: seq<Id>, start: map<Id, Link>, links: map<Id, Link>, p: nat, take: nat)
    requires IsOrder(order, start) && links.Keys == start.Keys && p <= |DisabledAfter(order, start, None)|
    requires forall l :: l in start && l !in DisabledAfter(order, start, None)[..p] ==> links[l] == start[l]
    ensures var all := DisabledAfter(order, start, None);
            Page(order, links, if p == 0 then None else Some(all[p - 1]), take) == Take(all[p..], take)
  {
    var all := DisabledAfter(order, start, None);
    var cursor := if p == 0 then None else Some(all[p - 1]);
    DisabledAfterHas(order, start, None);
    DisabledAfterHas(order, links, cursor);
    forall k
      ensures k in DisabledAfter(order, links, cursor) <==> k in all[p..]
    {
      AfterCursor(all, p, k);
    }
    AscendingIsUnique(DisabledAfter(order, links, cursor), all[p..]);
  }

  // ---------------------------------------------------------------- the sweep

  /** One link: classified as its row stands, counted, and flipped if that is due and writes are allowed. */
  function ExamineOne(db: Db, s: Summary, l: Id, now: Time, apply: bool): (r: (Db, Summary))
    requires l in db.links
    ensures r.0.links.Keys == db.links.Keys
  {
    var c := ClassifyIn(db, l, now);
    (if apply && c == RestorableAndCurrentlyUsable then db.(links := db.links[l := db.links[l].(status := ACTIVE)])
        else db,
     Count(s, l, c, apply))
  }

  /** These links one after the other, each from the rows the others left. */
  function Sweep(db: Db, s: Summary, ids: seq<Id>, now: Time, apply: bool): (r: (Db, Summary))
    requires forall l :: l in ids ==> l in db.links
    ensures r.0.links.Keys == db.links.Keys
  {
    if ids == [] then (db, s)
    else
      var (before, counted) := Sweep(db, s, ids[..|ids| - 1], now, apply);
      ExamineOne(before, counted, ids[|ids| - 1], now, apply)
  }

  lemma {:induction false} SweepAppend(db: Db, s: Summary, ids: seq<Id>, more: seq<Id>, now: Time, apply: bool)
    requires forall l :: l in ids + more ==> l in db.links
    ensures var (mid, counted) := Sweep(db, s, ids, now, apply);
            Sweep(db, s, ids + more, now, apply) == Sweep(mid, counted, more, now, apply)
  {
    if more == [] {
      assert ids + more == ids;
    } else {
      SweepAppend(db, s, ids, more[..|more| - 1], now, apply);
      assert (ids + more)[..|ids + more| - 1] == ids + more[..|more| - 1];
    }
  }

  lemma {:induction false} UnvisitedIsUntouched(db: Db, s: Summary, ids: seq<Id>, now: Time, apply: bool, l: Id)
    requires (forall k :: k in ids ==> k in db.links) && l in db.links && l !in ids
    ensures var after := Sweep(db, s, ids, now, apply).0;
            && after == db.(links := after.links) && after.links[l] == db.links[l]
  {
    if ids != [] { UnvisitedIsUntouched(db, s, ids[..|ids| - 1], now, apply, l); }
  }

  lemma OneMoreVisited(start: Db, visited: seq<Id>, l: Id, now: Time)
    requires (forall k :: k in visited ==> k in start.links) && l in start.links
    ensures Verdicts(start, visited + [l], now) ==
              Verdicts(start, visited, now) + [Verdict(l, ClassifyIn(start, l, now))]
    ensures FlipAll(start, visited + [l], now) ==
              if ClassifyIn(start, l, now) == RestorableAndCurrentlyUsable
              then FlipAll(start, visited, now)[l := start.links[l].(status := ACTIVE)]
                  else FlipAll(start, visited, now)
  {
    assert (visited + [l])[..|visited|] == visited;
  }

  /** Flipping links on the way changes nothing for those still to come: the rows at the start decide all. */
  lemma {:induction false} StartDecidesSweep(db: Db, ids: seq<Id>, now: Time, apply: bool)
    requires Ascending(ids) && forall l :: l in ids ==> l in db.links
    ensures Sweep(db, EMPTY, ids, now, apply).1 == Tally(Verdicts(db, ids, now), apply)
    ensures Sweep(db, EMPTY, ids, now, apply).0 == if apply then db.(links := FlipAll(db, ids, now)) else db
  {
    if ids == [] {
      assert FlipAll(db, ids, now) == db.links;
    } else {
      var n := |ids| - 1;
      var rest, l := ids[..n], ids[n];
      StartDecidesSweep(db, rest, now, apply);
      NotYetVisited(ids, n);
      UnvisitedIsUntouched(db, EMPTY, rest, now, apply, l);
      OneMoreVisited(db, rest, l, now);
      assert ids == rest + [l];
      assert Verdicts(db, ids, now)[..n] == Verdicts(db, rest, now) by {
        if n > 0 { VerdictAt(db, rest, now, 0); }
      }
    }
  }

  class ReconcileShareLinks {
    var links: map<Id, Link>
    const order: seq<Id>
    const canonicals: set<Id>
    const creations: seq<Creation>

    ghost function Rows(): Db
      reads this
    {
      Db(order, links, canonicals, creations)
    }

    /** Canonical anchors first, then the creation records from the earliest on, then nothing. */
    method ResolveProvenance(ids: seq<Id>) returns (provenance: map<Id, Provenance>)
      ensures provenance.Keys >= set l | l in ids
      ensures forall l :: l in ids ==> provenance[l] == ProvenanceOf(canonicals, creations, l)
    {
      provenance := map l | l in ids && l in canonicals :: CANONICAL;
      for i := 0 to |creations|
        invariant forall l :: l in ids && l in canonicals ==> l in provenance && provenance[l] == CANONICAL
        invariant forall l :: l in ids && l !in canonicals ==>
                    (l in provenance <==> FirstCreation(creations[..i], l).Some?)
        invariant forall l :: l in ids && l in provenance ==>
                    provenance[l] == ProvenanceOf(canonicals, creations[..i], l)
      {
        assert creations[..i + 1] == creations[..i] + [creations[i]];
        forall l: Id
          ensures FirstCreation(creations[..i + 1], l) ==
                    if FirstCreation(creations[..i], l).Some? then FirstCreation(creations[..i], l)
                    else if creations[i].entityId == Some(l) then Some(creations[i]) else None
        {
          FirstCreationAppend(creations[..i], creations[i], l);
        }
        var id := creations[i].entityId;
        if id.Some? && id.value in ids && id.value !in provenance {
          var count := creations[i].recordedVideoCount;
          provenance := provenance[id.value := if count.None? then MALFORMED else CREATED(count.value)];
        }
      }
      assert creations[..|creations|] == creations;
      for i := 0 to |ids|
        invariant forall l :: l in ids && l in provenance ==> provenance[l] == ProvenanceOf(canonicals, creations, l)
        invariant forall l :: l in ids && ProvenanceOf(canonicals, creations, l) != MISSING ==> l in provenance
        invariant forall j :: 0 <= j < i ==> ids[j] in provenance
      {
        if ids[i] !in provenance { provenance := provenance[ids[i] := MISSING]; }
      }
    }

    /** One link of a batch. In a dry run no write is issued at all. */
    method Examine(s: Summary, l: Id, provenance: Provenance, now: Time, apply: bool) returns (counted: Summary)
      requires l in links && provenance == ProvenanceOf(canonicals, creations, l)
      modifies `links
      ensures (Rows(), counted) == ExamineOne(old(Rows()), s, l, now, apply)
    {
      var c := ClassifyShareLink(links[l], provenance, now);
      if c.Skipped? { return CountSkip(s, c.reason); }
      counted := s.(examined := s.examined + 1, safeProven := s.safeProven + 1);
      if c == RestorableButExpired { return counted.(expired := s.expired + 1); }
      if c == RestorableButViewLimitReached { return counted.(viewLimitReached := s.viewLimitReached + 1); }
      counted := counted.(usable := s.usable + 1);
      if !apply { return counted.(reactivatedIds := s.reactivatedIds + [l]); }
      links := links[l := links[l].(status := ACTIVE)];
      return counted.(reactivated := s.reactivated + 1, reactivatedIds := s.reactivatedIds + [l]);
    }

    /** The links of one batch, in order. */
    method ExamineBatch(s: Summary, batch: seq<Id>, now: Time, apply: bool) returns (counted: Summary)
      requires forall l :: l in batch ==> l in links
      modifies `links
      ensures (Rows(), counted) == Sweep(old(Rows()), s, batch, now, apply)
    {
      var provenance := ResolveProvenance(batch);
      ghost var start := Rows();
      counted := s;
      for i := 0 to |batch|
        invariant links.Keys == start.links.Keys
        invariant (Rows(), counted) == Sweep(start, s, batch[..i], now, apply)
      {
        assert batch[..i + 1][..i] == batch[..i];
        counted := Examine(counted, batch[i], provenance[batch[i]], now, apply);
      }
      assert batch[..|batch|] == batch;
    }

    /** The query: a scan of the table in the order of its key. */
    method FindDisabled(cursor: Option<Id>, take: nat) returns (page: seq<Id>)
      ensures page == Page(order, links, cursor, take)
    {
      page := [];
      var rest := order;
      while rest != [] && |page| < take
        invariant |page| <= take && page + DisabledAfter(rest, links, cursor) == DisabledAfter(order, links, cursor)
        decreases |rest|
      {
        var l := rest[0];
        if l in links && links[l].status == DISABLED && (cursor.Some? ==> l > cursor.value) {
          assert page + DisabledAfter(rest, links, cursor) == (page + [l]) + DisabledAfter(rest[1..], links, cursor);
          page := page + [l];
        }
        rest := rest[1..];
      }
    }

    /** One page, examined. `start` and `visited` say how far the sweep has come. */
    method NextPageExamined(s: Summary, cursor: Option<Id>, batchSize: nat, now: Time, apply: bool,
                            ghost start: Db, ghost visited: seq<Id>)
      returns (counted: Summary, page: seq<Id>)
      requires start.order == order && IsOrder(order, start.links)
      requires var all := DisabledAfter(order, start.links, None); |visited| <= |all| && visited == all[..|visited|]
      requires cursor == LastOf(visited)
      requires (forall l :: l in visited ==> l in start.links)
                 && (Rows(), s) == Sweep(start, EMPTY, visited, now, apply)
      modifies `links
      ensures page == Take(DisabledAfter(order, start.links, None)[|visited|..], batchSize)
      ensures forall l :: l in visited + page ==> l in start.links
      ensures (Rows(), counted) == Sweep(start, EMPTY, visited + page, now, apply)
    {
      NextPage(start, visited, batchSize, now, apply);
      page := FindDisabled(cursor, batchSize);
      SweepAppend(start, EMPTY, visited, page, now, apply);
      counted := ExamineBatch(s, page, now, apply);
    }

    /** One round of the loop: `done` is what has been visited after it, and `more` whether it found anything. */
    method NextBatch(s: Summary, cursor: Option<Id>, batchSize: nat, now: Time, apply: bool,
                     ghost start: Db, ghost batch: nat, ghost maxBatches: nat)
      returns (counted: Summary, next: Option<Id>, more: bool, ghost done: seq<Id>)
      requires start.order == order && IsOrder(order, start.links) && batch < maxBatches
      requires var visited := VisitedIn(start, batchSize, batch);
               && cursor == LastOf(visited) && (forall l :: l in visited ==> l in start.links)
               && (Rows(), s) == Sweep(start, EMPTY, visited, now, apply)
      modifies `links
      ensures done == VisitedIn(start, batchSize, batch + 1) && next == LastOf(done)
      ensures !more ==> done == VisitedIn(start, batchSize, maxBatches)
      ensures (forall l :: l in done ==> l in start.links) && (Rows(), counted) == Sweep(start, EMPTY, done, now, apply)
    {
      ghost var visited := VisitedIn(start, batchSize, batch);
      BatchTakes(DisabledAfter(order, start.links, None), batchSize, batch, maxBatches);
      var page;
      counted, page := NextPageExamined(s, cursor, batchSize, now, apply, start, visited);
      done, next, more := visited + page, cursor, page != [];
      if more {
        next := Some(page[|page| - 1]);
      } else {
        assert done == visited;
      }
    }

    /** The whole sweep visits what `Reach` says of the rows it started from, whatever it flips on the way. */
    method Reconcile(batchSize: nat, maxBatches: nat, now: Time, apply: bool) returns (summary: Summary)
      requires IsOrder(order, links)
      modifies `links
      ensures forall l :: l in Reach(order, old(links), batchSize, maxBatches) ==> l in old(links)
      ensures (Rows(), summary) == Sweep(old(Rows()), EMPTY, Reach(order, old(links), batchSize, maxBatches), now,
                apply)
    {
      ghost var start, visited := Rows(), [];
      summary := EMPTY;
      var cursor: Option<Id> := None;
      var batch, more := 0, true;
      while batch < maxBatches && more
        invariant 0 <= batch <= maxBatches
        invariant visited == VisitedIn(start, batchSize, batch) && cursor == LastOf(visited)
        invariant !more ==> visited == VisitedIn(start, batchSize, maxBatches)
        invariant (forall l :: l in visited ==> l in start.links)
                    && (Rows(), summary) == Sweep(start, EMPTY, visited, now, apply)
        decreases maxBatches - batch
      {
        summary, cursor, more, visited := NextBatch(summary, cursor, batchSize, now, apply, start, batch, maxBatches);
        batch := batch + 1;
      }
      TimesIsProduct(batchSize, maxBatches);
    }
  }

  /** What a sweep has visited after so many batches. */
  function VisitedIn(start: Db, batchSize: nat, batches: nat): seq<Id> {
    Take(DisabledAfter(start.order, start.links, None), Times(batchSize, batches))
  }

  /** In the middle of a sweep, the next page is the next stretch of the links that were DISABLED at the start. */
  lemma NextPage(start: Db, visited: seq<Id>, take: nat, now: Time, apply: bool)
    requires IsOrder(start.order, start.links)
    requires var all := DisabledAfter(start.order, start.links, None); |visited| <= |all| && visited == all[..|visited|]
    ensures var all := DisabledAfter(start.order, start.links, None);
            && (forall l :: l in all ==> l in start.links)
            && var links := Sweep(start, EMPTY, visited, now, apply).0.links;
               var cursor := LastOf(visited);
               && links.Keys == start.links.Keys
               && Page(start.order, links, cursor, take) == Take(all[|visited|..], take)
               && forall l :: l in Page(start.order, links, cursor, take) ==> l in all
  {
    var all := DisabledAfter(start.order, start.links, None);
    DisabledAfterHas(start.order, start.links, None);
    var links := Sweep(start, EMPTY, visited, now, apply).0.links;
    forall l | l in start.links && l !in visited
      ensures links[l] == start.links[l]
    {
      UnvisitedIsUntouched(start, EMPTY, visited, now, apply, l);
    }
    PageFollowsCursor(start.order, start.links, links, |visited|, take);
    forall l | l in Take(all[|visited|..], take)
      ensures l in all
    {
      AfterCursor(all, |visited|, l);
    }
  }

  // ---------------------------------------------------------------- what a run amounts to

  ghost predicate Sound(db: Db) { IsOrder(db.order, db.links) }

  /** Each DISABLED link is visited at most once, in order, and every one if the batches reach far enough. */
  lemma SweepVisitsEachOnce(db: Db, batchSize: nat, maxBatches: nat)
    requires Sound(db)
    ensures var reach := Reach(db.order, db.links, batchSize, maxBatches);
            && Ascending(reach)
            && (forall l :: l in reach ==> l in db.links && db.links[l].status == DISABLED)
            && (|DisabledAfter(db.order, db.links, None)| <= batchSize * maxBatches ==>
                  forall l :: l in db.links && db.links[l].status == DISABLED ==> l in reach)
  {
    DisabledAfterHas(db.order, db.links, None);
    var all := DisabledAfter(db.order, db.links, None);
    if |all| > batchSize * maxBatches {
      forall l | l in all[..batchSize * maxBatches]
        ensures l in all
      {
        AfterCursor(all, batchSize * maxBatches, l);
      }
    }
  }

  /** One whole run: the rows it leaves and what it reports. */
  function RunSweep(db: Db, batchSize: nat, maxBatches: nat, now: Time, apply: bool): (Db, Summary)
    requires forall l :: l in Reach(db.order, db.links, batchSize, maxBatches) ==> l in db.links
  {
    Sweep(db, EMPTY, Reach(db.order, db.links, batchSize, maxBatches), now, apply)
  }

  /**
   The report adds up, a dry run writes nothing and lists exactly what an apply would flip, and an apply
   flips just that.
   */
  lemma SweepReport(db: Db, batchSize: nat, maxBatches: nat, now: Time)
    requires Sound(db)
    ensures var reach := Reach(db.order, db.links, batchSize, maxBatches);
            && (forall l :: l in reach ==> l in db.links)
            && var (untouched, dry) := RunSweep(db, batchSize, maxBatches, now, false);
               var (applied, report) := RunSweep(db, batchSize, maxBatches, now, true);
               && untouched == db && dry == report.(reactivated := 0)
               && Conserved(dry, false) && Conserved(report, true) && report.examined == |reach|
               && applied == db.(links := applied.links) && applied.links.Keys == db.links.Keys
               && (forall l :: l in dry.reactivatedIds <==> Flips(db, reach, now, l))
               && (forall l :: l in db.links ==>
                     applied.links[l] == if l in dry.reactivatedIds then db.links[l].(status := ACTIVE)
                         else db.links[l])
  {
    SweepVisitsEachOnce(db, batchSize, maxBatches);
    var reach := Reach(db.order, db.links, batchSize, maxBatches);
    StartDecidesSweep(db, reach, now, false);
    StartDecidesSweep(db, reach, now, true);
    DryRunPredictsApply(Verdicts(db, reach, now));
    TallyIsConserved(Verdicts(db, reach, now), true);
    TallyIsConserved(Verdicts(db, reach, now), false);
    if reach != [] { VerdictAt(db, reach, now, 0); }
    forall l
      ensures l in Tally(Verdicts(db, reach, now), false).reactivatedIds <==> Flips(db, reach, now, l)
    {
      ListedIsFlipped(db, reach, now, false, l);
    }
  }

  // ---------------------------------------------------------------- running it again

  predicate Usable(db: Db, l: Id, now: Time)
    requires l in db.links
  {
    ClassifyIn(db, l, now) == RestorableAndCurrentlyUsable
  }

  /** The links a run leaves DISABLED. */
  function Kept(db: Db, ids: seq<Id>, now: Time): seq<Id>
    requires forall l :: l in ids ==> l in db.links
  {
    if ids == [] then []
    else
      var last := ids[|ids| - 1];
      Kept(db, ids[..|ids| - 1], now) + if Usable(db, last, now) then [] else [last]
  }

  lemma {:induction false} KeptMembers(db: Db, ids: seq<Id>, now: Time)
    requires forall l :: l in ids ==> l in db.links
    ensures forall l :: l in Kept(db, ids, now) <==> l in ids && !Usable(db, l, now)
  {
    if ids != [] {
      var rest, last := ids[..|ids| - 1], ids[|ids| - 1];
      KeptMembers(db, rest, now);
      assert ids == rest + [last];
    }
  }

  lemma {:induction false} KeptHas(db: Db, ids: seq<Id>, now: Time)
    requires Ascending(ids) && forall l :: l in ids ==> l in db.links
    ensures Ascending(Kept(db, ids, now))
    ensures forall l :: l in Kept(db, ids, now) <==> l in ids && !Usable(db, l, now)
  {
    KeptMembers(db, ids, now);
    if ids != [] {
      var n := |ids| - 1;
      KeptHas(db, ids[..n], now);
      SplitAscending(ids, n);
      assert ids[n..] == [ids[n]];
      AppendAscending(Kept(db, ids[..n], now), [ids[n]]);
    }
  }

  function UsableAmong(verdicts: seq<Verdict>): nat {
    if verdicts == [] then 0
    else
      UsableAmong(verdicts[..|verdicts| - 1])
      + if verdicts[|verdicts| - 1].classification == RestorableAndCurrentlyUsable then 1 else 0
  }

  lemma {:induction false} TallyCountsUsable(verdicts: seq<Verdict>, apply: bool)
    ensures Tally(verdicts, apply).usable == UsableAmong(verdicts)
  {
    if verdicts != [] { TallyCountsUsable(verdicts[..|verdicts| - 1], apply); }
  }

  lemma {:induction false} KeptAndUsable(db: Db, ids: seq<Id>, now: Time)
    requires forall l :: l in ids ==> l in db.links
    ensures UsableAmong(Verdicts(db, ids, now)) + |Kept(db, ids, now)| == |ids|
  {
    if ids != [] {
      var rest, last := ids[..|ids| - 1], ids[|ids| - 1];
      KeptAndUsable(db, rest, now);
      var verdicts := Verdicts(db, ids, now);
      assert verdicts[..|verdicts| - 1] == Verdicts(db, rest, now);
    }
  }

  lemma KeptCount(db: Db, ids: seq<Id>, now: Time)
    requires forall l :: l in ids ==> l in db.links
    ensures Tally(Verdicts(db, ids, now), true).usable + |Kept(db, ids, now)| == |ids|
  {
    TallyCountsUsable(Verdicts(db, ids, now), true);
    KeptAndUsable(db, ids, now);
  }

  /** The classification never looks at the status, so a flip elsewhere or here does not change it. */
  lemma FlipsDoNotReclassify(db: Db, ids: seq<Id>, now: Time, l: Id)
    requires (forall k :: k in ids ==> k in db.links) && l in db.links
    ensures ClassifyIn(db.(links := FlipAll(db, ids, now)), l, now) == ClassifyIn(db, l, now)
  {
  }

  /** After an apply, the DISABLED links are those it kept, then those it did not reach. */
  lemma DisabledAfterApply(db: Db, n: nat, now: Time)
    requires Sound(db)
    ensures var all := DisabledAfter(db.order, db.links, None);
            && (forall l :: l in all ==> l in db.links) && Ascending(all)
            && DisabledAfter(db.order, FlipAll(db, Take(all, n), now), None) ==
                Kept(db, Take(all, n), now) + all[|Take(all, n)|..]
  {
    var all := DisabledAfter(db.order, db.links, None);
    DisabledAfterHas(db.order, db.links, None);
    var p := |Take(all, n)|;
    assert Take(all, n) == all[..p];
    SplitAscending(all, p);
    KeptHas(db, all[..p], now);
    AppendAscending(Kept(db, all[..p], now), all[p..]);
    DisabledAfterHas(db.order, FlipAll(db, all[..p], now), None);
    forall l: Id
      ensures l in DisabledAfter(db.order, FlipAll(db, all[..p], now), None) <==>
                l in Kept(db, all[..p], now) + all[p..]
    {
      StillDisabledIff(db, all[..p], now, l);
    }
    AscendingIsUnique(DisabledAfter(db.order, FlipAll(db, all[..p], now), None), Kept(db, all[..p], now) + all[p..]);
  }

  lemma StillDisabledIff(db: Db, ids: seq<Id>, now: Time, l: Id)
    requires forall k :: k in ids ==> k in db.links
    ensures Matches(FlipAll(db, ids, now), l, None) <==> Matches(db.links, l, None) && !(l in ids && Usable(db, l, now))
  {
  }

  /**
   An apply repeated with the same options at the same time flips nothing if and only if none of the
   links just beyond the first run's reach, as many as it flipped, is usable. (A run that reached every
   DISABLED link has nothing beyond its reach.)
   */
  lemma SecondApplyFlipsNothingIff(db: Db, batchSize: nat, maxBatches: nat, now: Time)
    requires Sound(db)
    ensures var all, reach := DisabledAfter(db.order, db.links, None), Reach(db.order, db.links, batchSize, maxBatches);
            && (forall l :: l in all ==> l in db.links) && (forall l :: l in reach ==> l in db.links)
            && var (after, report) := RunSweep(db, batchSize, maxBatches, now, true);
               && (forall l :: l in Reach(after.order, after.links, batchSize, maxBatches) ==> l in after.links)
               && (RunSweep(after, batchSize, maxBatches, now, true).1.reactivated == 0 <==>
                     forall l :: l in Take(all[|reach|..], report.reactivated) ==> !Usable(db, l, now))
  {
    SecondReach(db, batchSize, maxBatches, now);
    var reach := Reach(db.order, db.links, batchSize, maxBatches);
    var after := RunSweep(db, batchSize, maxBatches, now, true).0;
    KeptHas(db, reach, now);
    NothingFlippedIff(after, Reach(after.order, after.links, batchSize, maxBatches), now);
    forall l | l in db.links
      ensures Usable(after, l, now) == Usable(db, l, now)
    {
      FlipsDoNotReclassify(db, reach, now, l);
    }
  }

  /** Two usable links and room for one: each of two equal runs flips one of them. */
  lemma SecondApplyCanFlip(link: Link, db: Db)
    requires link == Link(1, DISABLED, None, None, 0, [Member(0, 5, Some(Video(true, true, true, {1})))])
    requires db == Db([2, 3], map[2 := link, 3 := link], {2, 3}, [])
    ensures Sound(db) && Reach(db.order, db.links, 1, 1) == [2]
    ensures var after := RunSweep(db, 1, 1, 0, true).0;
            && (forall l :: l in Reach(after.order, after.links, 1, 1) ==> l in after.links)
            && RunSweep(db, 1, 1, 0, true).1.reactivated == 1
            && RunSweep(after, 1, 1, 0, true).1.reactivated != 0
  {
    var member := Member(0, 5, Some(Video(true, true, true, {1})));
    assert SortOrders([member]) == {0};
    AnyMemberIff([member], (m: Member) => m.video.None?);
    RestorableIff(link, CANONICAL, 0);
    assert Usable(db, 2, 0) && Usable(db, 3, 0);
    assert [2, 3][1..] == [3] && [3][1..] == [];
    assert DisabledAfter([3], db.links, None) == [3];
    assert DisabledAfter(db.order, db.links, None) == [2, 3];
    assert Sweep(db, EMPTY, [2][..0], 0, true) == (db, EMPTY);
    SecondApplyFlipsNothingIff(db, 1, 1, 0);
    assert Take([2, 3][1..], 1) == [3];
  }

  /** The second run visits the links the first one kept, and as many beyond as it flipped. */
  lemma SecondReach(db: Db, batchSize: nat, maxBatches: nat, now: Time)
    requires Sound(db)
    ensures var all, reach := DisabledAfter(db.order, db.links, None), Reach(db.order, db.links, batchSize, maxBatches);
            && (forall l :: l in all ==> l in db.links) && (forall l :: l in reach ==> l in db.links)
            && Ascending(reach)
            && var (after, report) := RunSweep(db, batchSize, maxBatches, now, true);
               var again := Reach(after.order, after.links, batchSize, maxBatches);
               && after == db.(links := FlipAll(db, reach, now))
               && again == Kept(db, reach, now) + Take(all[|reach|..], report.reactivated)
               && Ascending(again) && (forall l :: l in again ==> l in after.links)
  {
    var n := batchSize * maxBatches;
    var all, reach := DisabledAfter(db.order, db.links, None), Reach(db.order, db.links, batchSize, maxBatches);
    DisabledAfterApply(db, n, now);
    SweepVisitsEachOnce(db, batchSize, maxBatches);
    StartDecidesSweep(db, reach, now, true);
    KeptCount(db, reach, now);
    TallyIsConserved(Verdicts(db, reach, now), true);
    var (after, report) := RunSweep(db, batchSize, maxBatches, now, true);
    TakeAgain(all, Kept(db, reach, now), n, report.reactivated);
    SweepVisitsEachOnce(after, batchSize, maxBatches);
  }

  /** Taking n again, once `flipped` of the first n are gone, reaches that many further. */
  lemma TakeAgain(all: seq<Id>, kept: seq<Id>, n: nat, flipped: nat)
    requires flipped + |kept| == |Take(all, n)|
    ensures Take(kept + all[|Take(all, n)|..], n) == kept + Take(all[|Take(all, n)|..], flipped)
  {
    var rest := all[|Take(all, n)|..];
    if |all| > n && |rest| > flipped { assert (kept + rest)[..n] == kept + rest[..flipped]; }
  }

  lemma NothingFlippedIff(db: Db, ids: seq<Id>, now: Time)
    requires Ascending(ids) && forall l :: l in ids ==> l in db.links
    ensures Sweep(db, EMPTY, ids, now, true).1.reactivated == 0 <==> forall l :: l in ids ==> !Usable(db, l, now)
  {
    StartDecidesSweep(db, ids, now, true);
    KeptHas(db, ids, now);
    TallyIsConserved(Verdicts(db, ids, now), true);
    var report := Tally(Verdicts(db, ids, now), true);
    forall l
      ensures l in report.reactivatedIds <==> l in ids && Usable(db, l, now)
    {
      if forall k :: k in ids ==> k in db.links { ListedIsFlipped(db, ids, now, true, l); }
    }
    if report.reactivatedIds != [] { assert report.reactivatedIds[0] in report.reactivatedIds; }
  }

  /** An apply that reached every DISABLED link is idempotent. */
  lemma UntruncatedApplyIsIdempotent(db: Db, batchSize: nat, maxBatches: nat, now: Time)
    requires Sound(db) && |DisabledAfter(db.order, db.links, None)| <= batchSize * maxBatches
    ensures forall l :: l in Reach(db.order, db.links, batchSize, maxBatches) ==> l in db.links
    ensures var after := RunSweep(db, batchSize, maxBatches, now, true).0;
            && (forall l :: l in Reach(after.order, after.links, batchSize, maxBatches) ==> l in after.links)
            && RunSweep(after, batchSize, maxBatches, now, true).1.reactivated == 0
            && RunSweep(after, batchSize, maxBatches, now, true).0 == after
  {
    SecondApplyFlipsNothingIff(db, batchSize, maxBatches, now);
    var after := RunSweep(db, batchSize, maxBatches, now, true).0;
    SweepReport(db, batchSize, maxBatches, now);
    SweepReport(after, batchSize, maxBatches, now);
    assert RunSweep(after, batchSize, maxBatches, now, true).0.links == after.links;
  }
}
