/**
 The pool of domains and which website owns which: created, claimed, assigned, replaced, unassigned,
 updated, disabled. Each operation is its checks and its write in one piece; what happens when another
 request comes between the two is shown at the end.
 */
module DomainPool {
  import opened Wrappers

  type DomainId = nat
  type WebsiteId = nat
  /** A host name after normalisation; only its identity matters. */
  type Host = nat

  datatype Domain = Domain(host: Host, websiteId: Option<WebsiteId>, isPrimary: bool, active: bool)

  /** `anchored` are the domains that canonical share links refer to. */
  datatype Db = Db(domains: map<DomainId, Domain>, activeWebsites: set<WebsiteId>, anchored: set<DomainId>)

  datatype Error =
    | WebsiteNotActive | AlreadyHasDomain | HostTaken | MustBeActive | DomainNotFound | CannotDisableAssigned
    | OnlyActivePrimary | AnotherActiveDomain | InUseElsewhere | Anchored

  datatype Outcome = Done | Refused(error: Error)

  // ---------------------------------------------------------------- pieces

  predicate Owned(db: Db, d: DomainId, w: WebsiteId) {
    d in db.domains && db.domains[d].websiteId == Some(w)
  }

  predicate HasDomain(db: Db, w: WebsiteId) {
    exists d :: d in db.domains && Owned(db, d, w)
  }

  predicate HostIsTaken(db: Db, host: Host, except: Option<DomainId>) {
    exists d :: d in db.domains && db.domains[d].host == host && Some(d) != except
  }

  function Put(db: Db, d: DomainId, domain: Domain): Db {
    db.(domains := db.domains[d := domain])
  }

  /** updateMany({websiteId: w, id: {not: except}}, isPrimary: false) */
  function DemoteOthers(db: Db, w: WebsiteId, except: DomainId): Db {
    db.(domains := map d | d in db.domains ::
          if db.domains[d].websiteId == Some(w) && d != except then db.domains[d].(isPrimary := false)
              else db.domains[d])
  }

  /** updateMany({websiteId: w, ...}, websiteId: null, isPrimary: false), with no look at canonical links. */
  function Detach(db: Db, w: WebsiteId, except: Option<DomainId>): Db {
    db.(domains := map d | d in db.domains ::
          if db.domains[d].websiteId == Some(w) && Some(d) != except
          then db.domains[d].(websiteId := None, isPrimary := false) else db.domains[d])
  }

  // ---------------------------------------------------------------- operations

  function CreateDomain(db: Db, w: WebsiteId, d: DomainId, host: Host, active: bool): (Db, Outcome) {
    if w !in db.activeWebsites then (db, Refused(WebsiteNotActive))
    else if HasDomain(db, w) then (db, Refused(AlreadyHasDomain))
    else if HostIsTaken(db, host, None) then (db, Refused(HostTaken))
    else if !active then (db, Refused(MustBeActive))
    else (Put(db, d, Domain(host, Some(w), true, true)), Done)
  }

  function Updated(current: Domain, host: Option<Host>, active: Option<bool>, primary: Option<bool>): Domain {
    current.(host := host.GetOr(current.host), active := active.GetOr(current.active),
             isPrimary := primary.GetOr(current.isPrimary))
  }

  /** update(d, data), after the others are demoted if the domain is to be primary. */
  function WriteUpdate(db: Db, w: WebsiteId, d: DomainId, host: Option<Host>, active: Option<bool>,
                       primary: Option<bool>, demote: bool): Db
    requires d in db.domains
  {
    Put(if demote then DemoteOthers(db, w, d) else db, d, Updated(db.domains[d], host, active, primary))
  }

  function UpdateDomain(db: Db, w: WebsiteId, d: DomainId, host: Option<Host>, active: Option<bool>,
                        primary: Option<bool>)
    : (Db, Outcome)
  {
    if !Owned(db, d, w) then (db, Refused(DomainNotFound))
    else
      var current := db.domains[d];
      if host.Some? && HostIsTaken(db, host.value, Some(d)) then (db, Refused(HostTaken))
      else if host.Some? && host.value != current.host && d in db.anchored then (db, Refused(Anchored))
      else if active == Some(false) then (db, Refused(CannotDisableAssigned))
      else
        var finalActive := active.GetOr(current.active);
        if primary == Some(true) && !finalActive then (db, Refused(OnlyActivePrimary))
        else
          (WriteUpdate(db, w, d, host, active, primary, finalActive && primary.GetOr(current.isPrimary)), Done)
  }

  function ActivateDomain(db: Db, w: WebsiteId, d: DomainId, primary: bool): (Db, Outcome) {
    if !Owned(db, d, w) then (db, Refused(DomainNotFound))
    else if exists e :: e in db.domains && Owned(db, e, w) && e != d && db.domains[e].active
        then (db, Refused(AnotherActiveDomain))
    else
      (WriteUpdate(db, w, d, None, Some(true), if primary then Some(true) else None, primary), Done)
  }

  function AssignRecord(db: Db, d: DomainId, w: WebsiteId, replaceExisting: bool): (Db, Outcome) {
    if d !in db.domains then (db, Refused(DomainNotFound))
    else if w !in db.activeWebsites then (db, Refused(WebsiteNotActive))
    else if !db.domains[d].active then (db, Refused(MustBeActive))
    else if db.domains[d].websiteId == Some(w) then
      (Put(Detach(db, w, Some(d)), d, db.domains[d].(isPrimary := true)), Done)
    else if db.domains[d].websiteId.Some? then (db, Refused(InUseElsewhere))
    else if HasDomain(db, w) && !replaceExisting then (db, Refused(AlreadyHasDomain))
    else
      var freed := if HasDomain(db, w) then Detach(db, w, None) else db;
      (Put(freed, d, db.domains[d].(websiteId := Some(w), isPrimary := true)), Done)
  }

  /** The host's own domain, created on the way if the pool has none (`newId`), then assigned without replacing. */
  function ClaimCurrent(db: Db, w: WebsiteId, host: Host, newId: DomainId): (Db, Outcome) {
    if w !in db.activeWebsites then (db, Refused(WebsiteNotActive))
    else if exists d :: d in db.domains && Owned(db, d, w) && db.domains[d].host == host then (db, Done)
    else if exists d :: d in db.domains && db.domains[d].host == host && db.domains[d].websiteId.Some?
        then (db, Refused(InUseElsewhere))
    else if exists d :: d in db.domains && db.domains[d].host == host && !db.domains[d].active
        then (db, Refused(MustBeActive))
    else if HasDomain(db, w) then (db, Refused(AlreadyHasDomain))
    else if exists d :: d in db.domains && db.domains[d].host == host then AssignRecord(db, newId, w, false)
    else AssignRecord(Put(db, newId, Domain(host, None, false, true)), newId, w, false)
  }

  function CreateStandalone(db: Db, d: DomainId, host: Host, active: bool): (Db, Outcome) {
    if HostIsTaken(db, host, None) then (db, Refused(HostTaken))
    else (Put(db, d, Domain(host, None, false, active)), Done)
  }

  function UpdateStandalone(db: Db, d: DomainId, host: Option<Host>, active: Option<bool>): (Db, Outcome) {
    if d !in db.domains then (db, Refused(DomainNotFound))
    else if host.Some? && HostIsTaken(db, host.value, Some(d)) then (db, Refused(HostTaken))
    else if host.Some? && host.value != db.domains[d].host && d in db.anchored then (db, Refused(Anchored))
    else if active == Some(false) && db.domains[d].websiteId.Some? then (db, Refused(CannotDisableAssigned))
    else (Put(db, d, Updated(db.domains[d], host, active, if active == Some(false) then Some(false) else None)), Done)
  }

  function DisableStandalone(db: Db, d: DomainId): (Db, Outcome) {
    if d !in db.domains then (db, Refused(DomainNotFound))
    else if db.domains[d].websiteId.Some? then (db, Refused(CannotDisableAssigned))
    else (Put(db, d, db.domains[d].(active := false, isPrimary := false)), Done)
  }

  function ActivateStandalone(db: Db, d: DomainId): (Db, Outcome) {
    if d !in db.domains then (db, Refused(DomainNotFound)) else (Put(db, d, db.domains[d].(active := true)), Done)
  }

  function Unassign(db: Db, d: DomainId): (Db, Outcome) {
    if d !in db.domains then (db, Refused(DomainNotFound))
    else if db.domains[d].websiteId.None? then (db, Done)
    else if d in db.anchored then (db, Refused(Anchored))
    else (Free(db, d), Done)
  }

  function Free(db: Db, d: DomainId): Db
    requires d in db.domains
  {
    Put(db, d, db.domains[d].(websiteId := None, isPrimary := false))
  }

  // ---------------------------------------------------------------- the invariant

  ghost predicate OneDomainEach(db: Db) {
    forall d, e ::
      (d in db.domains && e in db.domains && db.domains[d].websiteId.Some?
          && db.domains[d].websiteId == db.domains[e].websiteId)
      ==> d == e
  }

  /** Owned domains are ACTIVE; a primary domain is owned. */
  predicate DomainSound(domain: Domain) {
    (domain.websiteId.Some? ==> domain.active) && (domain.isPrimary ==> domain.websiteId.Some?)
  }

  ghost predicate HostsUnique(db: Db) {
    forall d, e :: d in db.domains && e in db.domains && db.domains[d].host == db.domains[e].host ==> d == e
  }

  ghost predicate Sound(db: Db) {
    && OneDomainEach(db) && HostsUnique(db)
    && forall d :: d in db.domains ==> DomainSound(db.domains[d])
  }

  datatype Op =
    | Create(w: WebsiteId, d: DomainId, host: Host, active: bool)
    | Update(w: WebsiteId, d: DomainId, newHost: Option<Host>, newActive: Option<bool>, primary: Option<bool>)
    | Activate(w: WebsiteId, d: DomainId, makePrimary: bool)
    | Assign(d: DomainId, w: WebsiteId, replaceExisting: bool)
    | Claim(w: WebsiteId, host: Host, d: DomainId)
    | Standalone(d: DomainId, host: Host, active: bool)
    | StandaloneUpdate(d: DomainId, newHost: Option<Host>, newActive: Option<bool>)
    | StandaloneDisable(d: DomainId)
    | StandaloneActivate(d: DomainId)
    | Release(d: DomainId)
    | SetWebsite(w: WebsiteId, on: bool)
    | Anchor(d: DomainId)

  function Step(db: Db, op: Op): Db {
    match op
    case Create(w, d, host, active) => CreateDomain(db, w, d, host, active).0
    case Update(w, d, host, active, primary) => UpdateDomain(db, w, d, host, active, primary).0
    case Activate(w, d, primary) => ActivateDomain(db, w, d, primary).0
    case Assign(d, w, replaceExisting) => AssignRecord(db, d, w, replaceExisting).0
    case Claim(w, host, d) => ClaimCurrent(db, w, host, d).0
    case Standalone(d, host, active) => CreateStandalone(db, d, host, active).0
    case StandaloneUpdate(d, host, active) => UpdateStandalone(db, d, host, active).0
    case StandaloneDisable(d) => DisableStandalone(db, d).0
    case StandaloneActivate(d) => ActivateStandalone(db, d).0
    case Release(d) => Unassign(db, d).0
    case SetWebsite(w, on) => db.(activeWebsites := if on then db.activeWebsites + {w} else db.activeWebsites - {w})
    case Anchor(d) => db.(anchored := db.anchored + {d})
  }

  /** New domains get new ids; a claim names the host's own domain, or a new id if there is none. */
  predicate Allowed(db: Db, op: Op) {
    match op
    case Create(_, d, _, _) => d !in db.domains
    case Standalone(d, _, _) => d !in db.domains
    case Claim(_, host, d) => if HostIsTaken(db, host, None) then d in db.domains && db.domains[d].host == host
        else d !in db.domains
    case _ => true
  }

  /** One row changes and stays sound; no other row is owned by the website it ends up with. */
  lemma PutKeepsSound(db: Db, d: DomainId, domain: Domain)
    requires Sound(db) && DomainSound(domain)
    requires !HostIsTaken(db, domain.host, Some(d))
    requires forall e :: e in db.domains && domain.websiteId.Some? && db.domains[e].websiteId == domain.websiteId ==>
               e == d
    ensures Sound(Put(db, d, domain))
  {
  }

  lemma HostsAreNotTaken(db: Db, d: DomainId)
    requires HostsUnique(db) && d in db.domains
    ensures !HostIsTaken(db, db.domains[d].host, Some(d))
  {
  }

  lemma DetachKeepsSound(db: Db, w: WebsiteId, except: Option<DomainId>)
    requires Sound(db)
    ensures Sound(Detach(db, w, except))
    ensures forall e: DomainId :: Owned(Detach(db, w, except), e, w) ==> Some(e) == except
    ensures forall host: Host, k: Option<DomainId> :: HostIsTaken(Detach(db, w, except), host, k) ==>
              HostIsTaken(db, host, k)
  {
  }

  /** With one domain per website there is nobody to demote. */
  lemma NobodyToDemote(db: Db, w: WebsiteId, d: DomainId)
    requires Sound(db) && Owned(db, d, w)
    ensures DemoteOthers(db, w, d) == db
  {
    assert DemoteOthers(db, w, d).domains == db.domains;
  }

  lemma AssignKeepsSound(db: Db, d: DomainId, w: WebsiteId, replaceExisting: bool)
    requires Sound(db)
    ensures Sound(AssignRecord(db, d, w, replaceExisting).0)
  {
    if AssignRecord(db, d, w, replaceExisting).1.Done? {
      HostsAreNotTaken(db, d);
      var domain := db.domains[d];
      if domain.websiteId == Some(w) {
        DetachKeepsSound(db, w, Some(d));
        PutKeepsSound(Detach(db, w, Some(d)), d, domain.(isPrimary := true));
      } else if HasDomain(db, w) {
        DetachKeepsSound(db, w, None);
        PutKeepsSound(Detach(db, w, None), d, domain.(websiteId := Some(w), isPrimary := true));
      } else {
        PutKeepsSound(db, d, domain.(websiteId := Some(w), isPrimary := true));
      }
    }
  }

  lemma OwnedUpdateKeepsSound(db: Db, op: Op)
    requires Sound(db) && (op.Update? || op.Activate?)
    ensures Sound(Step(db, op))
  {
    if Owned(db, op.d, op.w) {
      NobodyToDemote(db, op.w, op.d);
      HostsAreNotTaken(db, op.d);
      if Step(db, op) != db { PutKeepsSound(db, op.d, Step(db, op).domains[op.d]); }
    }
  }

  lemma StandaloneKeepsSound(db: Db, op: Op)
    requires Sound(db) && (op.StandaloneUpdate? || op.StandaloneDisable? || op.StandaloneActivate? || op.Release?)
    ensures Sound(Step(db, op))
  {
    if op.d in db.domains && Step(db, op) != db {
      HostsAreNotTaken(db, op.d);
      PutKeepsSound(db, op.d, Step(db, op).domains[op.d]);
    }
  }

  lemma ClaimKeepsSound(db: Db, op: Op)
    requires Sound(db) && op.Claim? && Allowed(db, op)
    ensures Sound(Step(db, op))
  {
    if HostIsTaken(db, op.host, None) {
      AssignKeepsSound(db, op.d, op.w, false);
    } else {
      PutKeepsSound(db, op.d, Domain(op.host, None, false, true));
      AssignKeepsSound(Put(db, op.d, Domain(op.host, None, false, true)), op.d, op.w, false);
    }
  }

  lemma StepKeepsSound(db: Db, op: Op)
    requires Sound(db) && Allowed(db, op)
    ensures Sound(Step(db, op))
  {
    match op
    case Create(w, d, host, active) =>
      if CreateDomain(db, w, d, host, active).1.Done? { PutKeepsSound(db, d, Domain(host, Some(w), true, true)); }
    case Standalone(d, host, active) =>
      if CreateStandalone(db, d, host, active).1.Done? { PutKeepsSound(db, d, Domain(host, None, false, active)); }
    case Assign(d, w, replaceExisting) => AssignKeepsSound(db, d, w, replaceExisting);
    case Claim(_, _, _) => ClaimKeepsSound(db, op);
    case Update(_, _, _, _, _) => OwnedUpdateKeepsSound(db, op);
    case Activate(_, _, _) => OwnedUpdateKeepsSound(db, op);
    case SetWebsite(_, _) =>
    case Anchor(_) =>
    case _ => StandaloneKeepsSound(db, op);
  }

  ghost predicate IsRun(states: seq<Db>, ops: seq<Op>) {
    && |states| == |ops| + 1
    && forall k :: 0 <= k < |ops| ==> Allowed(states[k], ops[k]) && states[k + 1] == Step(states[k], ops[k])
  }

  /** With operations taken one after the other: one domain per website, owned ones ACTIVE, primary ones owned. */
  lemma {:induction false} PoolStaysSound(states: seq<Db>, ops: seq<Op>, i: nat)
    requires IsRun(states, ops) && Sound(states[0]) && i < |states|
    ensures Sound(states[i])
  {
    if i > 0 {
      PoolStaysSound(states, ops, i - 1);
      StepKeepsSound(states[i - 1], ops[i - 1]);
    }
  }

  // ---------------------------------------------------------------- what an assignment does

  /** An accepted assignment makes the domain the website's only one, and its primary; no other website loses one. */
  lemma AssignmentIsExclusive(db: Db, d: DomainId, w: WebsiteId, replaceExisting: bool)
    requires Sound(db)
    ensures AssignRecord(db, d, w, replaceExisting).1.Done? <==>
              && d in db.domains && w in db.activeWebsites && db.domains[d].active
              && (db.domains[d].websiteId == Some(w)
                  || (db.domains[d].websiteId.None? && (replaceExisting || !HasDomain(db, w))))
    ensures var (after, outcome) := AssignRecord(db, d, w, replaceExisting);
            && (outcome.Refused? ==> after == db)
            && (outcome.Done? ==>
                  && (forall e: DomainId :: Owned(after, e, w) <==> e == d) && after.domains[d].isPrimary
                  && (forall e: DomainId, x: WebsiteId :: x != w ==> (Owned(after, e, x) <==> Owned(db, e, x))))
  {
  }

  /** The website's own domain; a free host, unless it stays, and none that canonical links record; not disabled. */
  predicate UpdateIsAllowed(db: Db, w: WebsiteId, d: DomainId, host: Option<Host>, active: Option<bool>,
                            primary: Option<bool>)
  {
    && d in db.domains && db.domains[d].websiteId == Some(w)
    && (host.Some? ==>
          && (host.value != db.domains[d].host ==> d !in db.anchored)
          && forall e :: e in db.domains && e != d ==> db.domains[e].host != host.value)
    && active != Some(false)
    && (primary == Some(true) ==> active == Some(true) || db.domains[d].active)
  }

  /** In any pool, sound or not: the row asked for, and no other primary domain of the website beside a new one. */
  lemma UpdateDoes(db: Db, w: WebsiteId, d: DomainId, host: Option<Host>, active: Option<bool>, primary: Option<bool>)
    ensures var (after, outcome) := UpdateDomain(db, w, d, host, active, primary);
            && (outcome == Done <==> UpdateIsAllowed(db, w, d, host, active, primary))
            && (outcome != Done ==> after == db)
            && (outcome == Done ==>
                  && after == db.(domains := after.domains) && after.domains.Keys == db.domains.Keys
                  && after.domains[d] == Domain(host.GetOr(db.domains[d].host), Some(w),
                                                primary.GetOr(db.domains[d].isPrimary),
                                                active.GetOr(db.domains[d].active))
                  && forall e :: e in db.domains && e != d ==>
                       after.domains[e] ==
                         if db.domains[e].websiteId == Some(w) && after.domains[d].active && after.domains[d].isPrimary
                         then db.domains[e].(isPrimary := false) else db.domains[e])
  {
  }

  /**
   An owned domain is updated as asked, field by field; it is never disabled, and a host that canonical
   links record is never renamed.
   */
  lemma UpdateChangesWhatWasAsked(db: Db, w: WebsiteId, d: DomainId, host: Option<Host>, active: Option<bool>,
                                  primary: Option<bool>)
    requires Sound(db) && Owned(db, d, w)
    ensures var (after, outcome) := UpdateDomain(db, w, d, host, active, primary);
            && (outcome.Done? <==>
                  && active != Some(false)
                  && (host.Some? ==>
                        !HostIsTaken(db, host.value, Some(d))
                            && (host.value == db.domains[d].host || d !in db.anchored)))
            && (outcome.Refused? ==> after == db)
            && (outcome.Done? ==>
                  && after.domains[d] == Domain(host.GetOr(db.domains[d].host), Some(w),
                      primary.GetOr(db.domains[d].isPrimary), true)
                  && forall e :: e in db.domains && e != d ==> e in after.domains && after.domains[e] == db.domains[e])
  {
    NobodyToDemote(db, w, d);
    assert DomainSound(db.domains[d]);
  }

  /** Unassigning what was just assigned to a website without a domain gives back the very same pool. */
  lemma UnassignUndoesAssign(db: Db, d: DomainId, w: WebsiteId)
    requires Sound(db) && d in db.domains && db.domains[d].websiteId.None? && d !in db.anchored
    requires AssignRecord(db, d, w, false).1.Done?
    ensures Unassign(AssignRecord(db, d, w, false).0, d) == (db, Done)
  {
    assert DomainSound(db.domains[d]);
    var owned := db.domains[d].(websiteId := Some(w), isPrimary := true);
    assert AssignRecord(db, d, w, false).0 == Put(db, d, owned);
    assert db.domains[d := owned][d := db.domains[d]] == db.domains;
  }

  // ---------------------------------------------------------------- anchored domains

  /** The one operation that detaches a domain from `x` without asking for canonical links: another replaces it. */
  predicate Replaces(db: Db, op: Op, e: DomainId, x: WebsiteId) {
    && op.Assign? && op.w == x && op.d != e && op.replaceExisting
    && op.d in db.domains && db.domains[op.d].active && db.domains[op.d].websiteId.None? && x in db.activeWebsites
  }

  /** What an anchored domain keeps: its host, and, unless it is replaced, its website. */
  predicate StaysAnchored(db: Db, op: Op, e: DomainId, x: WebsiteId)
    requires e in db.domains
  {
    && e in Step(db, op).domains && Step(db, op).domains[e].host == db.domains[e].host && e in Step(db, op).anchored
    && (Owned(Step(db, op), e, x) <==> !Replaces(db, op, e, x))
  }

  lemma AssignmentStaysAnchored(db: Db, op: Op, e: DomainId, x: WebsiteId)
    requires Sound(db) && op.Assign? && Owned(db, e, x) && e in db.anchored
    ensures StaysAnchored(db, op, e, x)
  {
    assert Owned(db, e, op.w) ==> HasDomain(db, op.w);
  }

  lemma ClaimStaysAnchored(db: Db, op: Op, e: DomainId, x: WebsiteId)
    requires Sound(db) && op.Claim? && Allowed(db, op) && Owned(db, e, x) && e in db.anchored
    ensures StaysAnchored(db, op, e, x)
  {
    assert Owned(db, e, op.w) ==> HasDomain(db, op.w);
  }

  lemma OtherStaysAnchored(db: Db, op: Op, e: DomainId, x: WebsiteId)
    requires Sound(db) && Allowed(db, op) && !op.Assign? && !op.Claim? && Owned(db, e, x) && e in db.anchored
    ensures StaysAnchored(db, op, e, x)
  {
  }

  /** An anchored domain stays with its website unless it is replaced, and keeps its host in any case. */
  lemma AnchoredDomainStaysIff(db: Db, op: Op, e: DomainId, x: WebsiteId)
    requires Sound(db) && Allowed(db, op) && Owned(db, e, x) && e in db.anchored
    ensures Owned(Step(db, op), e, x) <==> !Replaces(db, op, e, x)
    ensures e in Step(db, op).domains && Step(db, op).domains[e].host == db.domains[e].host
    ensures e in Step(db, op).anchored
  {
    if op.Assign? {
      AssignmentStaysAnchored(db, op, e, x);
    } else if op.Claim? {
      ClaimStaysAnchored(db, op, e, x);
    } else {
      OtherStaysAnchored(db, op, e, x);
    }
  }

  predicate OwnedThroughout(states: seq<Db>, i: nat, j: nat, e: DomainId, x: WebsiteId)
    requires i <= j < |states|
  {
    forall k :: i <= k <= j ==> Owned(states[k], e, x)
  }

  predicate Unreplaced(states: seq<Db>, ops: seq<Op>, i: nat, j: nat, e: DomainId, x: WebsiteId)
    requires |states| == |ops| + 1 && i <= j < |states|
  {
    forall k :: i <= k < j ==> !Replaces(states[k], ops[k], e, x)
  }

  lemma OneMoreMoment(states: seq<Db>, ops: seq<Op>, i: nat, j: nat, e: DomainId, x: WebsiteId)
    requires |states| == |ops| + 1 && i < j < |states|
    ensures OwnedThroughout(states, i, j, e, x) <==> OwnedThroughout(states, i, j - 1, e, x) && Owned(states[j], e, x)
    ensures OwnedThroughout(states, i, j - 1, e, x) ==> Owned(states[j - 1], e, x)
    ensures Unreplaced(states, ops, i, j, e, x) <==>
              Unreplaced(states, ops, i, j - 1, e, x) && !Replaces(states[j - 1], ops[j - 1], e, x)
  {
  }

  lemma AnchoredMoment(states: seq<Db>, ops: seq<Op>, k: nat, e: DomainId, x: WebsiteId)
    requires IsRun(states, ops) && Sound(states[0]) && k < |ops| && Owned(states[k], e, x) && e in states[k].anchored
    ensures Owned(states[k + 1], e, x) <==> !Replaces(states[k], ops[k], e, x)
    ensures e in states[k + 1].domains && states[k + 1].domains[e].host == states[k].domains[e].host
    ensures e in states[k + 1].anchored
  {
    PoolStaysSound(states, ops, k);
    AnchoredDomainStaysIff(states[k], ops[k], e, x);
  }

  /** Over a run: it is attached all the way exactly if nothing on the way replaces it, and its host never changes. */
  lemma {:induction false} AnchoredDomainStaysThroughoutIff(states: seq<Db>, ops: seq<Op>, i: nat, j: nat,
                                                            e: DomainId, x: WebsiteId)
    requires IsRun(states, ops) && i <= j < |states| && Sound(states[0])
    requires Owned(states[i], e, x) && e in states[i].anchored
    ensures OwnedThroughout(states, i, j, e, x) <==> Unreplaced(states, ops, i, j, e, x)
    ensures OwnedThroughout(states, i, j, e, x) ==>
              && e in states[j].anchored && e in states[j].domains
              && states[j].domains[e].host == states[i].domains[e].host
    decreases j
  {
    if i < j {
      AnchoredDomainStaysThroughoutIff(states, ops, i, j - 1, e, x);
      OneMoreMoment(states, ops, i, j, e, x);
      if OwnedThroughout(states, i, j - 1, e, x) { AnchoredMoment(states, ops, j - 1, e, x); }
    }
  }

  /** Replacing detaches even a domain that canonical links are anchored to; unassigning it directly is refused. */
  lemma ReplaceIgnoresAnchors()
    ensures var db := Db(map[2 := Domain(10, Some(1), true, true), 3 := Domain(11, None, false, true)], {1}, {2});
            && Sound(db) && Unassign(db, 2) == (db, Refused(Anchored))
            && AssignRecord(db, 3, 1, true).1.Done? && AssignRecord(db, 3, 1, true).0.domains[2].websiteId.None?
  {
    var db := Db(map[2 := Domain(10, Some(1), true, true), 3 := Domain(11, None, false, true)], {1}, {2});
    assert Owned(db, 2, 1);
  }

  // ---------------------------------------------------------------- between the check and the write

  /** createDomain's write, at a moment when its count may be out of date. */
  function InsertOwned(db: Db, d: DomainId, w: WebsiteId, host: Host): Db {
    Put(db, d, Domain(host, Some(w), true, true))
  }

  /** The write keeps one domain per website exactly when the website still has none at that moment. */
  lemma LateInsertKeepsOwnershipIff(db: Db, d: DomainId, w: WebsiteId, host: Host)
    requires OneDomainEach(db) && d !in db.domains
    ensures OneDomainEach(InsertOwned(db, d, w, host)) <==> !HasDomain(db, w)
  {
    var after := InsertOwned(db, d, w, host);
    if HasDomain(db, w) {
      var e :| e in db.domains && Owned(db, e, w);
      assert e in after.domains && d in after.domains && after.domains[e].websiteId == after.domains[d].websiteId;
    }
  }

  /** Two creations that both counted before either wrote leave the website with two domains. */
  lemma ConcurrentCreationsShareAWebsite()
    ensures var db := Db(map[], {1}, {});
            && CreateDomain(db, 1, 2, 10, true).1.Done? && CreateDomain(db, 1, 3, 11, true).1.Done?
            && var both := InsertOwned(InsertOwned(db, 2, 1, 10), 3, 1, 11);
               Owned(both, 2, 1) && Owned(both, 3, 1) && !OneDomainEach(both)
  {
    var both := InsertOwned(InsertOwned(Db(map[], {1}, {}), 2, 1, 10), 3, 1, 11);
    assert 2 in both.domains && 3 in both.domains && both.domains[2].websiteId == both.domains[3].websiteId;
  }

  lemma DemotionKeepsSound(db: Db, w: WebsiteId, d: DomainId)
    requires Sound(db) && d in db.domains
    ensures Sound(DemoteOthers(db, w, d)) && DemoteOthers(db, w, d).domains[d] == db.domains[d]
    ensures forall host: Host, k: Option<DomainId> ::
              HostIsTaken(DemoteOthers(db, w, d), host, k) ==> HostIsTaken(db, host, k)
  {
  }

  lemma UnsoundRow(db: Db, d: DomainId)
    requires d in db.domains && !DomainSound(db.domains[d])
    ensures !Sound(db)
  {
  }

  /**
   The write of updateDomain, activateDomain, updateStandaloneDomain or activateStandaloneDomain, after any
   other operations may have come between its checks and it, and a free host: sound exactly if it makes
   primary none but an owned domain, and disables none but an unowned one.
   */
  lemma LateUpdateKeepsSoundIff(db: Db, w: WebsiteId, d: DomainId, host: Option<Host>, active: Option<bool>,
                                primary: Option<bool>, demote: bool)
    requires Sound(db) && d in db.domains && (host.Some? ==> !HostIsTaken(db, host.value, Some(d)))
    ensures Sound(WriteUpdate(db, w, d, host, active, primary, demote)) <==>
              && (primary == Some(true) ==> db.domains[d].websiteId.Some?)
              && (active == Some(false) ==> db.domains[d].websiteId.None?)
  {
    var updated := Updated(db.domains[d], host, active, primary);
    var after := WriteUpdate(db, w, d, host, active, primary, demote);
    HostsAreNotTaken(db, d);
    DemotionKeepsSound(db, w, d);
    assert after.domains[d] == updated && DomainSound(db.domains[d]);
    if DomainSound(updated) {
      PutKeepsSound(if demote then DemoteOthers(db, w, d) else db, d, updated);
    } else {
      UnsoundRow(after, d);
    }
  }

  /** disableStandaloneDomain's write, and a release, which is sound at any time. */
  lemma LateDisableKeepsSoundIff(db: Db, d: DomainId)
    requires Sound(db) && d in db.domains
    ensures Sound(Put(db, d, db.domains[d].(active := false, isPrimary := false))) <==> db.domains[d].websiteId.None?
    ensures Sound(Free(db, d))
  {
    var disabled := db.domains[d].(active := false, isPrimary := false);
    HostsAreNotTaken(db, d);
    PutKeepsSound(db, d, db.domains[d].(websiteId := None, isPrimary := false));
    if db.domains[d].websiteId.None? {
      PutKeepsSound(db, d, disabled);
    } else {
      UnsoundRow(Put(db, d, disabled), d);
    }
  }

  /** The three writes of an assignment, at a moment when the reads that chose one may be out of date. */
  function TakeOver(db: Db, d: DomainId, w: WebsiteId): Db
    requires d in db.domains
  {
    Put(db, d, db.domains[d].(websiteId := Some(w), isPrimary := true))
  }

  function Replace(db: Db, d: DomainId, w: WebsiteId): Db
    requires d in db.domains
  {
    Put(Detach(db, w, None), d, Detach(db, w, None).domains[d].(websiteId := Some(w), isPrimary := true))
  }

  function Reassert(db: Db, d: DomainId, w: WebsiteId): Db
    requires d in db.domains
  {
    Put(Detach(db, w, Some(d)), d, db.domains[d].(isPrimary := true))
  }

  /**
   Without replacing: sound exactly if the domain is still ACTIVE and the website has no other by then. With
   replacing: exactly if it is still ACTIVE. Of the website's own domain: exactly if it is still owned.
   */
  lemma LateAssignKeepsSoundIff(db: Db, d: DomainId, w: WebsiteId)
    requires Sound(db) && d in db.domains
    ensures Sound(TakeOver(db, d, w)) <==> db.domains[d].active && forall e :: Owned(db, e, w) ==> e == d
    ensures Sound(Replace(db, d, w)) <==> db.domains[d].active
    ensures Sound(Reassert(db, d, w)) <==> db.domains[d].websiteId.Some?
  {
    LateTakeOverKeepsSoundIff(db, d, w);
    LateReplaceKeepsSoundIff(db, d, w);
  }

  lemma LateTakeOverKeepsSoundIff(db: Db, d: DomainId, w: WebsiteId)
    requires Sound(db) && d in db.domains
    ensures Sound(TakeOver(db, d, w)) <==> db.domains[d].active && forall e :: Owned(db, e, w) ==> e == d
  {
    var after := TakeOver(db, d, w);
    HostsAreNotTaken(db, d);
    if e :| Owned(db, e, w) && e != d {
      assert e in after.domains && d in after.domains && after.domains[e].websiteId == after.domains[d].websiteId;
    } else if !db.domains[d].active {
      assert !DomainSound(after.domains[d]);
    } else {
      forall e | e in db.domains && db.domains[e].websiteId == Some(w)
        ensures e == d
      {
        assert Owned(db, e, w);
      }
      PutKeepsSound(db, d, after.domains[d]);
    }
  }

  lemma LateReplaceKeepsSoundIff(db: Db, d: DomainId, w: WebsiteId)
    requires Sound(db) && d in db.domains
    ensures Sound(Replace(db, d, w)) <==> db.domains[d].active
    ensures Sound(Reassert(db, d, w)) <==> db.domains[d].websiteId.Some?
  {
    HostsAreNotTaken(db, d);
    DetachKeepsSound(db, w, None);
    DetachKeepsSound(db, w, Some(d));
    var replaced, reasserted := Replace(db, d, w), Reassert(db, d, w);
    if db.domains[d].active {
      PutKeepsSound(Detach(db, w, None), d, replaced.domains[d]);
    } else {
      assert !DomainSound(replaced.domains[d]);
    }
    if db.domains[d].websiteId.Some? {
      assert DomainSound(db.domains[d]);
      PutKeepsSound(Detach(db, w, Some(d)), d, reasserted.domains[d]);
    } else {
      assert !DomainSound(reasserted.domains[d]);
    }
  }

  /**
   A sound result may still have cost another website its domain: exactly if the domain was that
   website's by then.
   */
  lemma LateAssignTakesDomainIff(db: Db, d: DomainId, w: WebsiteId, other: WebsiteId)
    requires Sound(db) && d in db.domains && other != w && HasDomain(db, other)
    ensures !HasDomain(TakeOver(db, d, w), other) <==> Owned(db, d, other)
  {
    var after := TakeOver(db, d, w);
    var e :| e in db.domains && Owned(db, e, other);
    if e == d {
      forall k | k in after.domains
        ensures !Owned(after, k, other)
      {
        if k != d { assert after.domains[k] == db.domains[k]; }
      }
    } else {
      assert e in after.domains && Owned(after, e, other);
    }
  }

  /** Every anchored domain is still there, under its host, and with its website if it had one. */
  ghost predicate AnchorsKept(db: Db, after: Db) {
    forall d :: d in db.anchored && d in db.domains ==>
      && d in after.domains && after.domains[d].host == db.domains[d].host
      && (db.domains[d].websiteId.Some? ==> after.domains[d].websiteId == db.domains[d].websiteId)
  }

  /**
   The write of an update or of a release, after a canonical link may have been anchored since its check:
   anchors are kept exactly if the domain is still unanchored, or the write changes nothing they rest on.
   */
  lemma LateWriteKeepsAnchorsIff(db: Db, w: WebsiteId, d: DomainId, host: Option<Host>, active: Option<bool>,
                                 primary: Option<bool>, demote: bool)
    requires d in db.domains
    ensures AnchorsKept(db, WriteUpdate(db, w, d, host, active, primary, demote)) <==>
              d !in db.anchored || host.GetOr(db.domains[d].host) == db.domains[d].host
    ensures AnchorsKept(db, Free(db, d)) <==> d !in db.anchored || db.domains[d].websiteId.None?
  {
    var updated, freed := WriteUpdate(db, w, d, host, active, primary, demote), Free(db, d);
    assert updated.domains[d].host == host.GetOr(db.domains[d].host) && freed.domains[d].websiteId.None?;
  }

  /** Nothing that canonical links are anchored to is detached from `w`, but for `d`. */
  ghost predicate NoOtherAnchor(db: Db, d: DomainId, w: WebsiteId) {
    forall e :: Owned(db, e, w) && e in db.anchored ==> e == d
  }

  predicate MayMove(db: Db, d: DomainId, w: WebsiteId)
    requires d in db.domains
  {
    d !in db.anchored || db.domains[d].websiteId.None? || db.domains[d].websiteId == Some(w)
  }

  lemma LateTakeOverKeepsAnchorsIff(db: Db, d: DomainId, w: WebsiteId)
    requires d in db.domains
    ensures AnchorsKept(db, TakeOver(db, d, w)) <==> MayMove(db, d, w)
  {
    assert TakeOver(db, d, w).domains[d].websiteId == Some(w);
  }

  lemma LateReplaceKeepsAnchorsIff(db: Db, d: DomainId, w: WebsiteId)
    requires d in db.domains
    ensures AnchorsKept(db, Replace(db, d, w)) <==> MayMove(db, d, w) && NoOtherAnchor(db, d, w)
  {
    var replaced := Replace(db, d, w);
    assert replaced.domains[d].websiteId == Some(w);
    if e :| Owned(db, e, w) && e in db.anchored && e != d { assert replaced.domains[e].websiteId.None?; }
  }

  lemma LateReassertKeepsAnchorsIff(db: Db, d: DomainId, w: WebsiteId)
    requires d in db.domains
    ensures AnchorsKept(db, Reassert(db, d, w)) <==> NoOtherAnchor(db, d, w)
  {
    var reasserted := Reassert(db, d, w);
    if e :| Owned(db, e, w) && e in db.anchored && e != d { assert reasserted.domains[e].websiteId.None?; }
  }

  /** The same for the writes of an assignment. */
  lemma LateAssignKeepsAnchorsIff(db: Db, d: DomainId, w: WebsiteId)
    requires d in db.domains
    ensures AnchorsKept(db, TakeOver(db, d, w)) <==> MayMove(db, d, w)
    ensures AnchorsKept(db, Replace(db, d, w)) <==> MayMove(db, d, w) && NoOtherAnchor(db, d, w)
    ensures AnchorsKept(db, Reassert(db, d, w)) <==> NoOtherAnchor(db, d, w)
  {
    LateTakeOverKeepsAnchorsIff(db, d, w);
    LateReplaceKeepsAnchorsIff(db, d, w);
    LateReassertKeepsAnchorsIff(db, d, w);
  }

  // In each instance the checks passed on the pool before, and the write comes after another operation.

  /** Disabled after it was assigned: an owned domain that is not ACTIVE. */
  lemma LateDisableBreaksThePool()
    ensures var before := Db(map[2 := Domain(10, None, false, true)], {1}, {});
            var now := Db(map[2 := Domain(10, Some(1), true, true)], {1}, {});
            && Sound(before) && DisableStandalone(before, 2).1.Done? && AssignRecord(before, 2, 1, false) == (now, Done)
            && !Sound(Put(now, 2, now.domains[2].(active := false, isPrimary := false)))
  {
    var before := Db(map[2 := Domain(10, None, false, true)], {1}, {});
    assert AssignRecord(before, 2, 1, false).0.domains == map[2 := Domain(10, Some(1), true, true)];
    LateDisableKeepsSoundIff(Db(map[2 := Domain(10, Some(1), true, true)], {1}, {}), 2);
  }

  /** Assigned after another was: a website with two domains. */
  lemma LateAssignBreaksThePool()
    ensures var before := Db(map[2 := Domain(10, None, false, true), 3 := Domain(11, None, false, true)], {1}, {});
            && Sound(before) && AssignRecord(before, 2, 1, false).1.Done? && AssignRecord(before, 3, 1, false).1.Done?
            && !Sound(TakeOver(AssignRecord(before, 2, 1, false).0, 3, 1))
  {
    var before := Db(map[2 := Domain(10, None, false, true), 3 := Domain(11, None, false, true)], {1}, {});
    AssignKeepsSound(before, 2, 1, false);
    assert Owned(AssignRecord(before, 2, 1, false).0, 2, 1);
    LateAssignKeepsSoundIff(AssignRecord(before, 2, 1, false).0, 3, 1);
  }

  const OwnedPool := Db(map[2 := Domain(10, Some(1), true, true)], {1}, {})

  /** Renamed, or released, after a canonical link was anchored to it. */
  lemma LateUpdateBreaksAnchors()
    ensures Sound(OwnedPool)
    ensures UpdateDomain(OwnedPool, 1, 2, Some(11), None, None).1.Done? && Unassign(OwnedPool, 2).1.Done?
    ensures var now := Step(OwnedPool, Anchor(2));
            && !AnchorsKept(now, WriteUpdate(now, 1, 2, Some(11), None, None, true)) && !AnchorsKept(now, Free(now, 2))
  {
    assert Owned(OwnedPool, 2, 1);
    LateWriteKeepsAnchorsIff(Step(OwnedPool, Anchor(2)), 1, 2, Some(11), None, None, true);
  }

  /** Made primary, by an update or an activation, after it was released: a primary domain that nobody owns. */
  lemma LateUpdateBreaksThePool()
    ensures Sound(OwnedPool)
    ensures UpdateDomain(OwnedPool, 1, 2, None, None, Some(true)).1.Done?
    ensures ActivateDomain(OwnedPool, 1, 2, true).1.Done?
    ensures var now := Unassign(OwnedPool, 2).0;
            && Sound(now) && 2 in now.domains && now.domains[2].websiteId.None?
            && !Sound(WriteUpdate(now, 1, 2, None, None, Some(true), true))
            && !Sound(WriteUpdate(now, 1, 2, None, Some(true), Some(true), true))
  {
    assert Owned(OwnedPool, 2, 1);
    LateDisableKeepsSoundIff(OwnedPool, 2);
    var now := Unassign(OwnedPool, 2).0;
    LateUpdateKeepsSoundIff(now, 1, 2, None, None, Some(true), true);
    LateUpdateKeepsSoundIff(now, 1, 2, None, Some(true), Some(true), true);
  }

  // ---------------------------------------------------------------- the service

  class DomainService {
    var domains: map<DomainId, Domain>
    var activeWebsites: set<WebsiteId>
    ghost var anchored: set<DomainId>

    ghost function Rows(): Db
      reads this
    {
      Db(domains, activeWebsites, anchored)
    }

    method FindOwned(w: WebsiteId) returns (found: bool)
      ensures found == HasDomain(Rows(), w)
    {
      found := exists d :: d in domains && domains[d].websiteId == Some(w);
      assert forall d :: Owned(Rows(), d, w) <==> d in domains && domains[d].websiteId == Some(w);
    }

    method CreateForWebsite(w: WebsiteId, d: DomainId, host: Host, active: bool) returns (outcome: Outcome)
      modifies this
      ensures (Rows(), outcome) == CreateDomain(old(Rows()), w, d, host, active)
      ensures outcome != Done ==> Rows() == old(Rows())
      ensures outcome == Done <==>
                && w in activeWebsites && active
                && forall e :: e in old(domains) ==>
                    old(domains)[e].websiteId != Some(w) && old(domains)[e].host != host
      ensures outcome == Done ==> domains == old(domains)[d := Domain(host, Some(w), true, true)]
    {
      if w !in activeWebsites { return Refused(WebsiteNotActive); }
      var owned := FindOwned(w);
      if owned { return Refused(AlreadyHasDomain); }
      if exists e :: e in domains && domains[e].host == host { return Refused(HostTaken); }
      if !active { return Refused(MustBeActive); }
      domains := domains[d := Domain(host, Some(w), true, true)];
      return Done;
    }

    method AssignDomainToWebsiteRecord(d: DomainId, w: WebsiteId, replaceExisting: bool) returns (outcome: Outcome)
      modifies this
      ensures (Rows(), outcome) == AssignRecord(old(Rows()), d, w, replaceExisting)
      ensures outcome != Done ==> Rows() == old(Rows())
      ensures outcome == Done <==>
                && d in old(domains) && w in activeWebsites && old(domains)[d].active
                && (old(domains)[d].websiteId == Some(w)
                    || (old(domains)[d].websiteId == None
                        && (replaceExisting || forall e :: e in old(domains) ==> old(domains)[e].websiteId != Some(w))))
      ensures outcome == Done ==>
                && domains.Keys == old(domains).Keys
                && domains[d] == old(domains)[d].(websiteId := Some(w), isPrimary := true)
                && forall e :: e in domains && e != d ==>
                     domains[e] == if old(domains)[e].websiteId == Some(w)
                                   then old(domains)[e].(websiteId := None, isPrimary := false) else old(domains)[e]
    {
      if d !in domains { return Refused(DomainNotFound); }
      var domain := domains[d];
      if w !in activeWebsites { return Refused(WebsiteNotActive); }
      if !domain.active { return Refused(MustBeActive); }
      if domain.websiteId == Some(w) {
        domains := map e | e in domains ::
          if domains[e].websiteId == Some(w) && e != d then domains[e].(websiteId := None, isPrimary := false)
              else domains[e];
        assert domains == Detach(old(Rows()), w, Some(d)).domains;
        domains := domains[d := domains[d].(isPrimary := true)];
        return Done;
      }
      if domain.websiteId.Some? { return Refused(InUseElsewhere); }
      var existing := FindOwned(w);
      if existing && !replaceExisting { return Refused(AlreadyHasDomain); }
      if existing {
        domains := map e | e in domains ::
          if domains[e].websiteId == Some(w) then domains[e].(websiteId := None, isPrimary := false) else domains[e];
        assert domains == Detach(old(Rows()), w, None).domains;
      }
      domains := domains[d := domains[d].(websiteId := Some(w), isPrimary := true)];
      return Done;
    }

    method UpdateOwned(w: WebsiteId, d: DomainId, host: Option<Host>, active: Option<bool>, primary: Option<bool>,
                       isAnchored: bool)
      returns (outcome: Outcome)
      requires isAnchored == (d in anchored)
      modifies this
      ensures (Rows(), outcome) == UpdateDomain(old(Rows()), w, d, host, active, primary)
      ensures outcome != Done ==> Rows() == old(Rows())
      ensures outcome == Done <==> UpdateIsAllowed(old(Rows()), w, d, host, active, primary)
      ensures outcome == Done ==>
                && domains.Keys == old(domains).Keys
                && domains[d] == Domain(host.GetOr(old(domains)[d].host), Some(w),
                                        primary.GetOr(old(domains)[d].isPrimary), active.GetOr(old(domains)[d].active))
                && forall e :: e in domains && e != d ==>
                     domains[e] == if old(domains)[e].websiteId == Some(w) && domains[d].active && domains[d].isPrimary
                                   then old(domains)[e].(isPrimary := false) else old(domains)[e]
    {
      UpdateDoes(Rows(), w, d, host, active, primary);
      if d !in domains || domains[d].websiteId != Some(w) { return Refused(DomainNotFound); }
      var current := domains[d];
      if host.Some? {
        if exists e :: e in domains && domains[e].host == host.value && e != d { return Refused(HostTaken); }
        if host.value != current.host && isAnchored { return Refused(Anchored); }
      }
      if active == Some(false) { return Refused(CannotDisableAssigned); }
      var finalActive := active.GetOr(current.active);
      if primary == Some(true) && !finalActive { return Refused(OnlyActivePrimary); }
      if finalActive && primary.GetOr(current.isPrimary) {
        domains := map e | e in domains ::
          if domains[e].websiteId == Some(w) && e != d then domains[e].(isPrimary := false) else domains[e];
      }
      domains := domains[d := Updated(current, host, active, primary)];
      return Done;
    }

    method Activate(w: WebsiteId, d: DomainId, primary: bool) returns (outcome: Outcome)
      modifies this
      ensures (Rows(), outcome) == ActivateDomain(old(Rows()), w, d, primary)
      ensures outcome != Done ==> Rows() == old(Rows())
      ensures outcome == Done <==>
                && d in old(domains) && old(domains)[d].websiteId == Some(w)
                && forall e :: e in old(domains) && e != d && old(domains)[e].active ==>
                    old(domains)[e].websiteId != Some(w)
      ensures outcome == Done ==>
                && domains.Keys == old(domains).Keys
                && domains[d] == old(domains)[d].(active := true, isPrimary := primary || old(domains)[d].isPrimary)
                && forall e :: e in domains && e != d ==>
                     domains[e] == if primary && old(domains)[e].websiteId == Some(w)
                                   then old(domains)[e].(isPrimary := false) else old(domains)[e]
    {
      if d !in domains || domains[d].websiteId != Some(w) { return Refused(DomainNotFound); }
      assert forall e :: Owned(Rows(), e, w) <==> e in domains && domains[e].websiteId == Some(w);
      if exists e :: e in domains && domains[e].websiteId == Some(w) && e != d && domains[e].active {
        return Refused(AnotherActiveDomain);
      }
      if primary {
        domains := map e | e in domains ::
          if domains[e].websiteId == Some(w) && e != d then domains[e].(isPrimary := false) else domains[e];
      }
      ghost var demoted := if primary then DemoteOthers(old(Rows()), w, d) else old(Rows());
      assert domains == demoted.domains;
      var row := domains[d].(active := true);
      if primary { row := row.(isPrimary := true); }
      domains := domains[d := row];
      return Done;
    }

    /** findUnique({domain}) on the unique host. */
    method FindByHost(host: Host) returns (found: Option<DomainId>)
      requires HostsUnique(Rows())
      ensures found.None? <==> !HostIsTaken(Rows(), host, None)
      ensures found.Some? ==> found.value in domains && domains[found.value].host == host
    {
      if d :| d in domains && domains[d].host == host { return Some(d); }
      return None;
    }

    /** The id of a new row comes from the database. */
    method ClaimCurrentDomain(w: WebsiteId, host: Host, newId: DomainId) returns (outcome: Outcome, claimed: DomainId)
      requires Sound(Rows()) && newId !in domains
      modifies this
      ensures Allowed(old(Rows()), Claim(w, host, claimed))
      ensures (Rows(), outcome) == ClaimCurrent(old(Rows()), w, host, claimed)
      ensures outcome != Done ==> Rows() == old(Rows())
      ensures outcome == Done <==>
                && w in activeWebsites
                && (claimed in old(domains) ==> old(domains)[claimed].websiteId in {None, Some(w)})
                && (claimed in old(domains) && old(domains)[claimed].websiteId == None ==> old(domains)[claimed].active)
                && forall e :: e in old(domains) && e != claimed ==> old(domains)[e].websiteId != Some(w)
      ensures outcome == Done ==>
                && claimed in domains && domains[claimed].host == host && domains[claimed].websiteId == Some(w)
                && domains == old(domains)[claimed := domains[claimed]]
                && domains[claimed] == if claimed in old(domains) && old(domains)[claimed].websiteId == Some(w)
                                       then old(domains)[claimed] else Domain(host, Some(w), true, true)
    {
      var found := FindByHost(host);
      claimed := found.GetOr(newId);
      if w !in activeWebsites { return Refused(WebsiteNotActive), claimed; }
      ghost var was := Rows();
      assert found.Some? ==> forall d :: d in domains && domains[d].host == host ==> d == claimed;
      if found.Some? {
        assert domains[claimed].websiteId == Some(w) ==> Owned(was, claimed, w);
        if domains[claimed].websiteId == Some(w) { return Done, claimed; }
        if domains[claimed].websiteId.Some? { return Refused(InUseElsewhere), claimed; }
        if !domains[claimed].active { return Refused(MustBeActive), claimed; }
      }
      var owned := FindOwned(w);
      if owned { return Refused(AlreadyHasDomain), claimed; }
      if found.None? { domains := domains[newId := Domain(host, None, false, true)]; }
      outcome := AssignDomainToWebsiteRecord(claimed, w, false);
    }

    method CreateStandaloneDomain(d: DomainId, host: Host, active: bool) returns (outcome: Outcome)
      modifies this
      ensures (Rows(), outcome) == CreateStandalone(old(Rows()), d, host, active)
      ensures outcome != Done ==> Rows() == old(Rows())
      ensures outcome == Done <==> forall e :: e in old(domains) ==> old(domains)[e].host != host
      ensures outcome == Done ==> domains == old(domains)[d := Domain(host, None, false, active)]
    {
      if exists e :: e in domains && domains[e].host == host { return Refused(HostTaken); }
      domains := domains[d := Domain(host, None, false, active)];
      return Done;
    }

    method UpdateStandaloneDomain(d: DomainId, host: Option<Host>, active: Option<bool>, isAnchored: bool)
      returns (outcome: Outcome)
      requires isAnchored == (d in anchored)
      modifies this
      ensures (Rows(), outcome) == UpdateStandalone(old(Rows()), d, host, active)
      ensures outcome != Done ==> Rows() == old(Rows())
      ensures outcome == Done <==>
                && d in old(domains)
                && (host.Some? ==>
                      && (host.value != old(domains)[d].host ==> d !in anchored)
                      && forall e :: e in old(domains) && e != d ==> old(domains)[e].host != host.value)
                && (active == Some(false) ==> old(domains)[d].websiteId == None)
      ensures outcome == Done ==>
                domains == old(domains)[d := Domain(host.GetOr(old(domains)[d].host), old(domains)[d].websiteId,
                                                    active != Some(false) && old(domains)[d].isPrimary,
                                                    active.GetOr(old(domains)[d].active))]
    {
      if d !in domains { return Refused(DomainNotFound); }
      var current := domains[d];
      if host.Some? {
        if exists e :: e in domains && domains[e].host == host.value && e != d { return Refused(HostTaken); }
        if host.value != current.host && isAnchored { return Refused(Anchored); }
      }
      if active == Some(false) && current.websiteId.Some? { return Refused(CannotDisableAssigned); }
      var data := current;
      if host.Some? { data := data.(host := host.value); }
      if active.Some? {
        data := data.(active := active.value);
        if !active.value { data := data.(isPrimary := false); }
      }
      domains := domains[d := data];
      return Done;
    }

    method DisableStandaloneDomain(d: DomainId) returns (outcome: Outcome)
      modifies this
      ensures (Rows(), outcome) == DisableStandalone(old(Rows()), d)
      ensures outcome != Done ==> Rows() == old(Rows())
      ensures outcome == Done <==> d in old(domains) && old(domains)[d].websiteId == None
      ensures outcome == Done ==> domains == old(domains)[d := old(domains)[d].(active := false, isPrimary := false)]
    {
      if d !in domains { return Refused(DomainNotFound); }
      if domains[d].websiteId.Some? { return Refused(CannotDisableAssigned); }
      domains := domains[d := domains[d].(active := false, isPrimary := false)];
      return Done;
    }

    method ActivateStandaloneDomain(d: DomainId) returns (outcome: Outcome)
      modifies this
      ensures (Rows(), outcome) == ActivateStandalone(old(Rows()), d)
      ensures outcome != Done ==> Rows() == old(Rows())
      ensures outcome == Done <==> d in old(domains)
      ensures outcome == Done ==> domains == old(domains)[d := old(domains)[d].(active := true)]
    {
      if d !in domains { return Refused(DomainNotFound); }
      domains := domains[d := domains[d].(active := true)];
      return Done;
    }

    method UnassignDomain(d: DomainId, isAnchored: bool) returns (outcome: Outcome)
      requires isAnchored == (d in anchored)
      modifies this
      ensures (Rows(), outcome) == Unassign(old(Rows()), d)
      ensures outcome != Done ==> Rows() == old(Rows())
      ensures outcome == Done <==> d in old(domains) && (old(domains)[d].websiteId == None || d !in anchored)
      ensures outcome == Done ==>
                domains == if old(domains)[d].websiteId == None then old(domains)
                           else old(domains)[d := old(domains)[d].(websiteId := None, isPrimary := false)]
    {
      if d !in domains { return Refused(DomainNotFound); }
      if domains[d].websiteId.None? { return Done; }
      if isAnchored { return Refused(Anchored); }
      domains := domains[d := domains[d].(websiteId := None, isPrimary := false)];
      return Done;
    }
  }
}
