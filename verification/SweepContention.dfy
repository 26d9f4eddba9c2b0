/**
 An applying share-link sweep while other requests write the same rows. One turn of the sweep is one query
 or one conditional update; between two turns anything else may happen, so the rows a page returned and
 the provenance looked up for them may be out of date when a link's turn comes.
 */
module SweepContention {
  import opened Wrappers
  import opened ShareLinks
  import opened Paging
  import opened ShareLinkSweep

  datatype Row = Row(linkId: Id, link: Link)

  /** `examined` and `flipped` are history: the links whose turn has come, and those whose row the sweep changed. */
  datatype Sweeping = Sweeping(
    db: Db,
    now: Time,
    cursor: Option<Id>,
    rows: seq<Row>,
    verdicts: seq<Verdict>,
    summary: Summary,
    examined: seq<Id>,
    flipped: seq<Id>)

  datatype Turn = ReadPage(take: nat) | ReadProvenance | ExamineNext | Others(after: Db)

  // ---------------------------------------------------------------- one turn

  function Snapshot(db: Db, ids: seq<Id>): seq<Row> {
    if ids == [] then []
    else (if ids[0] in db.links then [Row(ids[0], db.links[ids[0]])] else []) + Snapshot(db, ids[1..])
  }

  function Classify(db: Db, rows: seq<Row>, now: Time): seq<Verdict> {
    seq(|rows|, i requires 0 <= i < |rows| =>
      Verdict(rows[i].linkId,
              ClassifyShareLink(rows[i].link, ProvenanceOf(db.canonicals, db.creations, rows[i].linkId), now)))
  }

  /** updateMany({id, status: DISABLED}, status: ACTIVE) */
  predicate Restores(db: Db, v: Verdict) {
    && v.classification == RestorableAndCurrentlyUsable
    && v.linkId in db.links && db.links[v.linkId].status == DISABLED
  }

  /** A usable link is counted as such; as reactivated only if its update matched. */
  function CountTurn(s: Summary, v: Verdict, matched: bool): Summary {
    if v.classification == RestorableAndCurrentlyUsable && !matched
    then s.(examined := s.examined + 1, safeProven := s.safeProven + 1, usable := s.usable + 1)
    else Count(s, v.linkId, v.classification, true)
  }

  function Examine(s: Sweeping): Sweeping
    requires s.verdicts != []
  {
    var v := s.verdicts[0];
    var matched := Restores(s.db, v);
    s.(db := if matched then s.db.(links := s.db.links[v.linkId := s.db.links[v.linkId].(status := ACTIVE)]) else s.db,
       verdicts := s.verdicts[1..],
       summary := CountTurn(s.summary, v, matched),
       examined := s.examined + [v.linkId],
       flipped := if matched then s.flipped + [v.linkId] else s.flipped)
  }

  function Step(s: Sweeping, t: Turn): Sweeping {
    match t
    case ReadPage(take) =>
      if s.rows != [] || s.verdicts != [] then s
      else
        var page := Page(s.db.order, s.db.links, s.cursor, take);
        s.(rows := Snapshot(s.db, page), cursor := if page == [] then s.cursor else LastOf(page))
    case ReadProvenance =>
      if s.verdicts != [] then s else s.(rows := [], verdicts := Classify(s.db, s.rows, s.now))
    case ExamineNext => if s.verdicts == [] then s else Examine(s)
    case Others(after) => s.(db := after)
  }

  function Start(db: Db, now: Time): Sweeping {
    Sweeping(db, now, None, [], [], EMPTY, [], [])
  }

  ghost predicate IsRun(states: seq<Sweeping>, turns: seq<Turn>) {
    && |states| == |turns| + 1 && Sound(states[0].db) && states[0] == Start(states[0].db, states[0].now)
    && forall i :: 0 <= i < |turns| ==>
         states[i + 1] == Step(states[i], turns[i]) && (turns[i].Others? ==> Sound(turns[i].after))
  }

  // ---------------------------------------------------------------- the invariant

  function RowIds(rows: seq<Row>): seq<Id> {
    seq(|rows|, i requires 0 <= i < |rows| => rows[i].linkId)
  }

  function VerdictIds(verdicts: seq<Verdict>): seq<Id> {
    seq(|verdicts|, i requires 0 <= i < |verdicts| => verdicts[i].linkId)
  }

  /** The links whose turn has come, in order, and then those whose turn comes next. */
  function Known(s: Sweeping): seq<Id> {
    s.examined + VerdictIds(s.verdicts) + RowIds(s.rows)
  }

  predicate Reports(s: Sweeping) {
    && s.summary.examined == |s.examined|
    && s.summary.reactivatedIds == s.flipped && s.summary.reactivated == |s.flipped| <= s.summary.usable
    && s.summary.examined == s.summary.usable + s.summary.expired + s.summary.viewLimitReached + |s.summary.skipped|
  }

  ghost predicate Inv(s: Sweeping) {
    && Sound(s.db) && Reports(s)
    && Ascending(Known(s)) && (forall l :: l in Known(s) ==> s.cursor.Some? && l <= s.cursor.value)
    && (s.verdicts != [] ==> s.rows == [])
    && Ascending(s.flipped) && (forall l :: l in s.flipped ==> l in s.examined)
  }

  lemma {:induction false} SnapshotIds(db: Db, ids: seq<Id>)
    requires forall l :: l in ids ==> l in db.links
    ensures RowIds(Snapshot(db, ids)) == ids
  {
    if ids != [] {
      SnapshotIds(db, ids[1..]);
      assert Snapshot(db, ids) == [Row(ids[0], db.links[ids[0]])] + Snapshot(db, ids[1..]);
      assert RowIds(Snapshot(db, ids)) == [ids[0]] + RowIds(Snapshot(db, ids[1..]));
    }
  }

  lemma PageIsAfterCursor(db: Db, cursor: Option<Id>, take: nat)
    requires Sound(db)
    ensures var page := Page(db.order, db.links, cursor, take);
            && Ascending(page)
            && (forall l :: l in page ==> l in db.links && (cursor.Some? ==> l > cursor.value) && l <= page[|page| - 1])
  {
    var all, page := DisabledAfter(db.order, db.links, cursor), Page(db.order, db.links, cursor, take);
    DisabledAfterHas(db.order, db.links, cursor);
    forall l | l in page
      ensures l in all && l <= page[|page| - 1]
    {
      var i :| 0 <= i < |page| && page[i] == l;
      assert all[i] == l;
    }
  }

  lemma PageKeepsInv(s: Sweeping, take: nat)
    requires Inv(s) && s.rows == [] && s.verdicts == []
    ensures Inv(Step(s, ReadPage(take)))
  {
    var after := Step(s, ReadPage(take));
    var page := Page(s.db.order, s.db.links, s.cursor, take);
    PageIsAfterCursor(s.db, s.cursor, take);
    SnapshotIds(s.db, page);
    assert Known(s) == s.examined;
    assert Known(after) == s.examined + page;
    AppendAscending(s.examined, page);
  }

  lemma ProvenanceKeepsInv(s: Sweeping)
    requires Inv(s) && s.verdicts == []
    ensures Inv(Step(s, ReadProvenance))
  {
    var after := Step(s, ReadProvenance);
    assert VerdictIds(after.verdicts) == RowIds(s.rows);
    assert Known(after) == Known(s);
  }

  /** One turn adds one link to exactly one of the counters. */
  lemma CountTurnAddsUp(s: Summary, v: Verdict, matched: bool)
    requires matched ==> v.classification == RestorableAndCurrentlyUsable
    ensures var counted := CountTurn(s, v, matched);
            && counted.examined == s.examined + 1
            && counted.usable + counted.expired + counted.viewLimitReached + |counted.skipped| ==
                 s.usable + s.expired + s.viewLimitReached + |s.skipped| + 1
            && counted.usable >= s.usable + (if matched then 1 else 0)
            && counted.reactivated == s.reactivated + (if matched then 1 else 0)
            && counted.reactivatedIds == if matched then s.reactivatedIds + [v.linkId] else s.reactivatedIds
  {
  }

  /** The next link moves from what is known to what is examined. */
  lemma ExamineKeepsKnown(s: Sweeping)
    requires s.verdicts != []
    ensures Known(Examine(s)) == Known(s)
    ensures |s.examined| < |Known(s)| && Known(s)[|s.examined|] == s.verdicts[0].linkId
    ensures forall i :: 0 <= i < |s.examined| ==> Known(s)[i] == s.examined[i]
  {
    assert VerdictIds(s.verdicts) == [s.verdicts[0].linkId] + VerdictIds(s.verdicts[1..]);
  }

  lemma ExamineKeepsInv(s: Sweeping)
    requires Inv(s) && s.verdicts != []
    ensures Inv(Examine(s))
  {
    var v := s.verdicts[0];
    ExamineKeepsKnown(s);
    CountTurnAddsUp(s.summary, v, Restores(s.db, v));
    forall l | l in s.flipped
      ensures l < v.linkId
    {
      var i :| 0 <= i < |s.examined| && s.examined[i] == l;
      assert Known(s)[i] == l;
    }
    AppendAscending(s.flipped, [v.linkId]);
    ExamineKeepsTable(s);
  }

  lemma ExamineKeepsTable(s: Sweeping)
    requires Sound(s.db) && s.verdicts != []
    ensures Sound(Examine(s).db)
  {
  }

  lemma StepKeepsInv(s: Sweeping, t: Turn)
    requires Inv(s) && (t.Others? ==> Sound(t.after))
    ensures Inv(Step(s, t))
  {
    match t
    case ReadPage(take) => if s.rows == [] && s.verdicts == [] { PageKeepsInv(s, take); }
    case ReadProvenance => if s.verdicts == [] { ProvenanceKeepsInv(s); }
    case ExamineNext => if s.verdicts != [] { ExamineKeepsInv(s); }
    case Others(after) => assert Known(Step(s, t)) == Known(s);
  }

  // ---------------------------------------------------------------- every run

  lemma {:induction false} RunKeepsInv(states: seq<Sweeping>, turns: seq<Turn>, i: nat)
    requires IsRun(states, turns) && i < |states|
    ensures Inv(states[i])
  {
    if i > 0 {
      RunKeepsInv(states, turns, i - 1);
      StepKeepsInv(states[i - 1], turns[i - 1]);
    }
  }

  /**
   Whatever others write meanwhile: every link has its turn at most once, the report lists exactly the
   links whose row the sweep changed, each once, and its counters add up.
   */
  lemma ContendedSweepReport(states: seq<Sweeping>, turns: seq<Turn>, i: nat)
    requires IsRun(states, turns) && i < |states|
    ensures var s := states[i];
            && Ascending(s.examined) && s.summary.examined == |s.examined|
            && Ascending(s.flipped) && s.summary.reactivatedIds == s.flipped
            && s.summary.reactivated == |s.flipped| <= s.summary.usable
            && s.summary.examined == s.summary.usable + s.summary.expired + s.summary.viewLimitReached
                + |s.summary.skipped|
            && forall l :: l in s.flipped ==> l in s.examined
  {
    RunKeepsInv(states, turns, i);
    var s := states[i];
    assert forall k :: 0 <= k < |s.examined| ==> Known(s)[k] == s.examined[k];
  }

  /** The sweep's own turns touch a row only to make a DISABLED link ACTIVE, and record it. */
  lemma OnlyDisabledRowsAreTouched(s: Sweeping, t: Turn, l: Id)
    requires !t.Others? && l in s.db.links
    ensures l in Step(s, t).db.links
    ensures Step(s, t).db.links[l] != s.db.links[l] ==>
              && s.db.links[l].status == DISABLED && Step(s, t).db.links[l] == s.db.links[l].(status := ACTIVE)
              && Step(s, t).flipped == s.flipped + [l]
  {
  }

  /** A link that was revoked, even after the sweep read it, stays revoked unless somebody else lifts that. */
  lemma {:induction false} RevokedStaysRevoked(states: seq<Sweeping>, turns: seq<Turn>, i: nat, j: nat, l: Id)
    requires IsRun(states, turns) && i <= j < |states|
    requires l in states[i].db.links && states[i].db.links[l].status == REVOKED
    requires forall k :: i <= k < j && turns[k].Others? ==>
               l in turns[k].after.links && turns[k].after.links[l].status == REVOKED
    ensures l in states[j].db.links && states[j].db.links[l].status == REVOKED
  {
    if i < j {
      RevokedStaysRevoked(states, turns, i, j - 1, l);
      if !turns[j - 1].Others? { OnlyDisabledRowsAreTouched(states[j - 1], turns[j - 1], l); }
    }
  }

  /** The sweep's own turn finds the link DISABLED and leaves it ACTIVE. */
  predicate FlipsNow(s: Sweeping, t: Turn, l: Id) {
    && !t.Others?
    && l in s.db.links && s.db.links[l].status == DISABLED
    && l in Step(s, t).db.links && Step(s, t).db.links[l].status == ACTIVE
  }

  lemma StepLists(s: Sweeping, t: Turn, l: Id)
    ensures l in Step(s, t).flipped <==> l in s.flipped || FlipsNow(s, t, l)
  {
    match t
    case ExamineNext =>
    case _ =>
  }

  /** A link is listed exactly if some turn found it DISABLED and left it ACTIVE. */
  lemma {:induction false} ListedIff(states: seq<Sweeping>, turns: seq<Turn>, i: nat, l: Id)
    requires IsRun(states, turns) && i < |states|
    ensures l in states[i].summary.reactivatedIds <==> exists k :: 0 <= k < i && FlipsNow(states[k], turns[k], l)
  {
    RunKeepsInv(states, turns, i);
    if i > 0 {
      ListedIff(states, turns, i - 1, l);
      RunKeepsInv(states, turns, i - 1);
      StepLists(states[i - 1], turns[i - 1], l);
    }
  }

  // ---------------------------------------------------------------- what a flip goes by

  /** The page turn `r` found the link DISABLED, with this row. */
  predicate RowReadAt(states: seq<Sweeping>, turns: seq<Turn>, r: nat, row: Row)
    requires |states| == |turns| + 1
  {
    && r < |turns| && turns[r].ReadPage?
    && row.linkId in states[r].db.links && states[r].db.links[row.linkId] == row.link && row.link.status == DISABLED
  }

  /** The page turn `r` and the provenance turn `p` after it found the link usable. */
  predicate JudgedAt(states: seq<Sweeping>, turns: seq<Turn>, r: nat, p: nat, l: Id)
    requires |states| == |turns| + 1
  {
    && r < p < |turns| && turns[r].ReadPage? && turns[p].ReadProvenance?
    && l in states[r].db.links && states[r].db.links[l].status == DISABLED
    && RestorableAndCurrentlyUsable ==
         ClassifyShareLink(states[r].db.links[l], ProvenanceOf(states[p].db.canonicals, states[p].db.creations, l),
                           states[0].now)
  }

  /** Every row kept for judging was read by an earlier page turn, every usable verdict judged by earlier turns. */
  ghost predicate GoesByReads(states: seq<Sweeping>, turns: seq<Turn>, i: nat)
    requires |states| == |turns| + 1 && i < |states|
  {
    && states[i].now == states[0].now
    && (forall row :: row in states[i].rows ==> exists r: nat :: r < i && RowReadAt(states, turns, r, row))
    && (forall v :: v in states[i].verdicts && v.classification == RestorableAndCurrentlyUsable ==>
          exists r: nat, p: nat :: p < i && JudgedAt(states, turns, r, p, v.linkId))
  }

  lemma {:induction false} SnapshotReads(db: Db, ids: seq<Id>)
    requires forall l :: l in ids ==> l in db.links && db.links[l].status == DISABLED
    ensures forall row :: row in Snapshot(db, ids) ==>
              row.linkId in db.links && db.links[row.linkId] == row.link && row.link.status == DISABLED
  {
    if ids != [] { SnapshotReads(db, ids[1..]); }
  }

  lemma PageIsDisabled(db: Db, cursor: Option<Id>, take: nat)
    requires Sound(db)
    ensures forall l :: l in Page(db.order, db.links, cursor, take) ==> l in db.links && db.links[l].status == DISABLED
  {
    var all, page := DisabledAfter(db.order, db.links, cursor), Page(db.order, db.links, cursor, take);
    DisabledAfterHas(db.order, db.links, cursor);
    forall l | l in page
      ensures l in all
    {
      var i :| 0 <= i < |page| && page[i] == l;
      assert all[i] == l;
    }
  }

  lemma {:induction false} VerdictsGoByReads(states: seq<Sweeping>, turns: seq<Turn>, i: nat)
    requires IsRun(states, turns) && i < |states|
    ensures GoesByReads(states, turns, i)
    decreases i
  {
    if i > 0 {
      VerdictsGoByReads(states, turns, i - 1);
      RunKeepsInv(states, turns, i - 1);
      var s, after := states[i - 1], states[i];
      match turns[i - 1]
      case ReadPage(take) =>
        PageIsDisabled(s.db, s.cursor, take);
        SnapshotReads(s.db, Page(s.db.order, s.db.links, s.cursor, take));
        forall row | row in after.rows
          ensures exists r: nat :: r < i && RowReadAt(states, turns, r, row)
        {
          if row !in s.rows { assert RowReadAt(states, turns, i - 1, row); }
        }
      case ReadProvenance => JudgingGoesByReads(states, turns, i - 1);
      case ExamineNext =>
      case Others(_) =>
    }
  }

  lemma JudgingGoesByReads(states: seq<Sweeping>, turns: seq<Turn>, p: nat)
    requires IsRun(states, turns) && p < |turns| && turns[p].ReadProvenance? && GoesByReads(states, turns, p)
    ensures GoesByReads(states, turns, p + 1)
  {
    var s, after := states[p], states[p + 1];
    if s.verdicts == [] {
      forall v | v in after.verdicts && v.classification == RestorableAndCurrentlyUsable
        ensures exists r: nat, q: nat :: q < p + 1 && JudgedAt(states, turns, r, q, v.linkId)
      {
        var k :| 0 <= k < |s.rows| && after.verdicts[k] == v;
        assert s.rows[k] in s.rows;
        var r: nat :| r < p && RowReadAt(states, turns, r, s.rows[k]);
        assert JudgedAt(states, turns, r, p, v.linkId);
      }
    }
  }

  lemma FlipIsOfTheHead(s: Sweeping, t: Turn, l: Id)
    requires FlipsNow(s, t, l)
    ensures t.ExamineNext? && s.verdicts != [] && Restores(s.db, s.verdicts[0]) && s.verdicts[0].linkId == l
  {
  }

  /** Whatever is restored was read as DISABLED and found usable, by the rows and provenance of two earlier turns. */
  lemma FlipGoesByItsReads(states: seq<Sweeping>, turns: seq<Turn>, k: nat, l: Id)
    requires IsRun(states, turns) && k < |turns| && FlipsNow(states[k], turns[k], l)
    ensures exists r: nat, p: nat :: p < k && JudgedAt(states, turns, r, p, l)
  {
    VerdictsGoByReads(states, turns, k);
    FlipIsOfTheHead(states[k], turns[k], l);
    assert states[k].verdicts[0] in states[k].verdicts;
  }

  /** A link's turn restores it exactly if it was found usable and its row is DISABLED by then; no other row changes. */
  lemma TurnRestoresIff(states: seq<Sweeping>, turns: seq<Turn>, k: nat)
    requires IsRun(states, turns) && k < |turns| && turns[k].ExamineNext? && states[k].verdicts != []
    ensures var s, after, v := states[k], states[k + 1], states[k].verdicts[0];
            var restored := v.classification == RestorableAndCurrentlyUsable && v.linkId in s.db.links
                            && s.db.links[v.linkId].status == DISABLED;
            && after.verdicts == s.verdicts[1..] && after.examined == s.examined + [v.linkId]
            && after.summary.reactivated == s.summary.reactivated + (if restored then 1 else 0)
            && after.summary.reactivatedIds == s.summary.reactivatedIds + (if restored then [v.linkId] else [])
            && if restored then after.db.links == s.db.links[v.linkId := s.db.links[v.linkId].(status := ACTIVE)]
               else after.db == s.db
  {
  }

  // ---------------------------------------------------------------- what other writers may touch

  /** What a verdict rests on besides the status. */
  datatype Fact = Membership | MemberVideos | Expiry | Budget | Evidence

  predicate SamePlaces(a: seq<Member>, b: seq<Member>) {
    |a| == |b| && forall i :: 0 <= i < |a| ==> a[i].sortOrder == b[i].sortOrder && a[i].videoId == b[i].videoId
  }

  predicate SameVideos(a: seq<Member>, b: seq<Member>) {
    |a| == |b| ==> forall i :: 0 <= i < |a| ==> a[i].video == b[i].video
  }

  /**
   A write by somebody else that changes, of everything the link's verdict rests on, these facts only. It may
   do what it likes to the status and to other links; a deleted link does not come back, and none moves to
   another website.
   */
  predicate TouchesOnly(db: Db, after: Db, l: Id, facts: set<Fact>) {
    && (l !in db.links ==> l !in after.links)
    && (l in db.links && l in after.links ==>
          && var a, b := db.links[l], after.links[l];
             && b.websiteId == a.websiteId
             && (Membership !in facts ==> SamePlaces(a.members, b.members))
             && (MemberVideos !in facts ==> SameVideos(a.members, b.members))
             && (Expiry !in facts ==> b.expiresAt == a.expiresAt)
             && (Budget !in facts ==> b.maxViews == a.maxViews && b.currentViews == a.currentViews))
    && (Evidence !in facts ==>
          ProvenanceOf(after.canonicals, after.creations, l) == ProvenanceOf(db.canonicals, db.creations, l))
  }

  /** The verdict is a matter of these facts: a write that touches none of them leaves it. */
  lemma UntouchedIsJudgedAlike(db: Db, after: Db, l: Id, now: Time)
    requires l in db.links && l in after.links && TouchesOnly(db, after, l, {})
    ensures Usable(after, l, now) == Usable(db, l, now)
  {
    var a, b := db.links[l].members, after.links[l].members;
    forall i | 0 <= i < |a|
      ensures a[i] == b[i]
    {
    }
    assert a == b;
    assert after.links[l].(status := db.links[l].status) == db.links[l];
    RestorableIff(db.links[l], ProvenanceOf(db.canonicals, db.creations, l), now);
    RestorableIff(after.links[l], ProvenanceOf(after.canonicals, after.creations, l), now);
  }

  /** Between the two reads and the flip others touch none of the facts; of the evidence, from its own read on. */
  ghost predicate WindowIsQuiet(states: seq<Sweeping>, turns: seq<Turn>, r: nat, p: nat, k: nat, l: Id)
    requires |states| == |turns| + 1 && k <= |turns|
  {
    && (forall m: nat :: r < m < k && turns[m].Others? ==> TouchesOnly(states[m].db, turns[m].after, l, {Evidence}))
    && (forall m: nat :: p < m < k && turns[m].Others? ==> TouchesOnly(states[m].db, turns[m].after, l, {}))
  }

  /** What was read of the link's row is still so at `k`, apart from the status. */
  predicate RowStands(states: seq<Sweeping>, r: nat, k: nat, l: Id)
    requires r < |states| && k < |states|
  {
    l in states[r].db.links
    && (l in states[k].db.links ==>
          states[k].db.links[l] == states[r].db.links[l].(status := states[k].db.links[l].status))
  }

  lemma MembersAreKept(a: seq<Member>, b: seq<Member>)
    requires SamePlaces(a, b) && SameVideos(a, b)
    ensures a == b
  {
  }

  lemma StepKeepsRow(s: Sweeping, t: Turn, l: Id)
    requires t.Others? ==> TouchesOnly(s.db, t.after, l, {Evidence})
    ensures l !in s.db.links ==> l !in Step(s, t).db.links
    ensures l in s.db.links && l in Step(s, t).db.links ==>
              Step(s, t).db.links[l] == s.db.links[l].(status := Step(s, t).db.links[l].status)
  {
    if t.Others? && l in s.db.links && l in t.after.links {
      MembersAreKept(s.db.links[l].members, t.after.links[l].members);
    }
  }

  lemma {:induction false} QuietKeepsRow(states: seq<Sweeping>, turns: seq<Turn>, r: nat, k: nat, l: Id)
    requires IsRun(states, turns) && r < k < |states| && l in states[r].db.links && !turns[r].Others?
    requires forall m: nat :: r < m < k && turns[m].Others? ==> TouchesOnly(states[m].db, turns[m].after, l, {Evidence})
    ensures RowStands(states, r, k, l)
    decreases k
  {
    if k > r + 1 { QuietKeepsRow(states, turns, r, k - 1, l); }
    StepKeepsRow(states[k - 1], turns[k - 1], l);
  }

  lemma {:induction false} QuietKeepsEvidence(states: seq<Sweeping>, turns: seq<Turn>, p: nat, k: nat, l: Id)
    requires IsRun(states, turns) && p < k < |states| && !turns[p].Others?
    requires forall m: nat :: p < m < k && turns[m].Others? ==> TouchesOnly(states[m].db, turns[m].after, l, {})
    ensures ProvenanceOf(states[k].db.canonicals, states[k].db.creations, l)
            == ProvenanceOf(states[p].db.canonicals, states[p].db.creations, l)
    decreases k
  {
    if k > p + 1 { QuietKeepsEvidence(states, turns, p, k - 1, l); }
  }

  /** A link judged usable and then left alone, but for its status, stays usable as long as it is there. */
  lemma QuietVerdictStands(states: seq<Sweeping>, turns: seq<Turn>, r: nat, p: nat, k: nat, l: Id)
    requires IsRun(states, turns) && p < k < |states| && l in states[k].db.links
    requires JudgedAt(states, turns, r, p, l) && WindowIsQuiet(states, turns, r, p, k, l)
    ensures Usable(states[k].db, l, states[0].now)
  {
    QuietKeepsRow(states, turns, r, k, l);
    QuietKeepsEvidence(states, turns, p, k, l);
    var evidence := ProvenanceOf(states[p].db.canonicals, states[p].db.creations, l);
    RestorableIff(states[r].db.links[l], evidence, states[0].now);
    RestorableIff(states[k].db.links[l], evidence, states[0].now);
  }

  /** So what a sweep restores is usable if nobody has touched what its own reads found. */
  lemma QuietFlipIsUsable(states: seq<Sweeping>, turns: seq<Turn>, k: nat, l: Id)
    requires IsRun(states, turns) && k < |turns| && FlipsNow(states[k], turns[k], l)
    ensures exists r: nat, p: nat :: p < k && JudgedAt(states, turns, r, p, l)
              && (WindowIsQuiet(states, turns, r, p, k, l) ==> Usable(states[k].db, l, states[0].now))
  {
    FlipGoesByItsReads(states, turns, k, l);
    var r: nat, p: nat :| p < k && JudgedAt(states, turns, r, p, l);
    if WindowIsQuiet(states, turns, r, p, k, l) { QuietVerdictStands(states, turns, r, p, k, l); }
  }

  // ---------------------------------------------------------------- when the window is safe

  function Latest(db: Db, writes: seq<Db>): Db {
    if writes == [] then db else writes[|writes| - 1]
  }

  /** Any number of writes by others, each on what the one before left, that touch these facts only. */
  ghost predicate MayWrite(db: Db, writes: seq<Db>, l: Id, facts: set<Fact>) {
    forall i :: 0 <= i < |writes| ==>
      Sound(writes[i]) && TouchesOnly(Latest(db, writes[..i]), writes[i], l, facts)
  }

  /** These writes as turns of the run. */
  lemma {:induction false} WritesContinueTheRun(states: seq<Sweeping>, turns: seq<Turn>, writes: seq<Db>)
    returns (later: seq<Sweeping>, more: seq<Turn>)
    requires IsRun(states, turns) && forall i :: 0 <= i < |writes| ==> Sound(writes[i])
    ensures IsRun(states + later, turns + more) && |later| == |more| == |writes|
    ensures var s := states[|states| - 1];
            (states + later)[|states + later| - 1] == s.(db := Latest(s.db, writes))
  {
    if writes == [] {
      later, more := [], [];
      assert states + later == states && turns + more == turns;
    } else {
      var n := |writes| - 1;
      var earlier, before := WritesContinueTheRun(states, turns, writes[..n]);
      var last := (states + earlier)[|states + earlier| - 1];
      later, more := earlier + [Step(last, Others(writes[n]))], before + [Others(writes[n])];
      assert states + later == (states + earlier) + [Step(last, Others(writes[n]))];
      assert turns + more == (turns + before) + [Others(writes[n])];
    }
  }

  lemma {:induction false} QuietWritesKeepVerdict(db: Db, writes: seq<Db>, l: Id, now: Time)
    requires MayWrite(db, writes, l, {}) && l in Latest(db, writes).links
    ensures l in db.links && Usable(Latest(db, writes), l, now) == Usable(db, l, now)
  {
    if writes != [] {
      var n := |writes| - 1;
      assert TouchesOnly(Latest(db, writes[..n]), writes[n], l, {});
      forall i | 0 <= i < n
        ensures Sound(writes[..n][i]) && TouchesOnly(Latest(db, writes[..n][..i]), writes[..n][i], l, {})
      {
        assert writes[..n][..i] == writes[..i];
      }
      QuietWritesKeepVerdict(db, writes[..n], l, now);
      UntouchedIsJudgedAlike(Latest(db, writes[..n]), writes[n], l, now);
    }
  }

  function WithoutVideos(members: seq<Member>): seq<Member> {
    seq(|members|, i requires 0 <= i < |members| => members[i].(video := None))
  }

  /** A write of this fact, and of the status, after which the link is not usable. */
  function Spoiled(db: Db, l: Id, fact: Fact, now: Time): Db
    requires l in db.links
  {
    var link := db.links[l].(status := DISABLED);
    var touched := match fact
      case Membership => link.(members := [])
      case MemberVideos => link.(members := WithoutVideos(link.members))
      case Expiry => link.(expiresAt := Some(now))
      case Budget => link.(maxViews := Some(0))
      case Evidence => link;
    var evidence := fact == Evidence;
    Db(db.order, db.links[l := touched], if evidence then db.canonicals - {l} else db.canonicals,
       if evidence then [] else db.creations)
  }

  lemma SpoiledIsUnusable(db: Db, l: Id, fact: Fact, now: Time)
    requires Sound(db) && l in db.links && db.links[l].members != []
    ensures var after := Spoiled(db, l, fact, now);
            Sound(after) && TouchesOnly(db, after, l, {fact}) && l in after.links && !Usable(after, l, now)
  {
    var after := Spoiled(db, l, fact, now);
    var link := after.links[l];
    var evidence := ProvenanceOf(after.canonicals, after.creations, l);
    RestorableIff(link, evidence, now);
    if fact == MemberVideos {
      AnyMemberIff(link.members, (m: Member) => m.video.None?);
      assert link.members[0].video.None?;
    }
  }

  /** In this state, the link's turn comes next, after these writes. */
  predicate FlipsAfter(s: Sweeping, writes: seq<Db>, l: Id) {
    FlipsNow(s.(db := Latest(s.db, writes)), ExamineNext, l)
  }

  ghost predicate UsableWhenRestored(s: Sweeping, l: Id, facts: set<Fact>) {
    forall writes :: MayWrite(s.db, writes, l, facts) && FlipsAfter(s, writes, l) ==>
      Usable(Latest(s.db, writes), l, s.now)
  }

  /**
   A link found usable whose turn comes next: whatever others write before it, as long as they touch these
   facts only, the link is usable if it is restored. That holds if and only if there is no fact they may
   touch and the verdict is true as yet, or the link is gone.
   */
  lemma RestoredIsUsableIff(states: seq<Sweeping>, turns: seq<Turn>, l: Id, facts: set<Fact>)
    requires IsRun(states, turns)
    requires var s := states[|states| - 1];
             s.verdicts != [] && s.verdicts[0] == Verdict(l, RestorableAndCurrentlyUsable)
    ensures var s := states[|states| - 1];
            UsableWhenRestored(s, l, facts) <==> l !in s.db.links || (facts == {} && Usable(s.db, l, s.now))
  {
    RunKeepsInv(states, turns, |states| - 1);
    var s := states[|states| - 1];
    if l in s.db.links {
      if facts == {} && Usable(s.db, l, s.now) {
        forall writes | MayWrite(s.db, writes, l, facts) && FlipsAfter(s, writes, l)
          ensures Usable(Latest(s.db, writes), l, s.now)
        {
          QuietWritesKeepVerdict(s.db, writes, l, s.now);
        }
      } else {
        var bad := UnusableWrite(s, l, facts);
        assert MayWrite(s.db, [bad], l, facts) by { assert [bad][..0] == []; }
        assert FlipsAfter(s, [bad], l) && !Usable(Latest(s.db, [bad]), l, s.now);
      }
    } else {
      forall writes | MayWrite(s.db, writes, l, facts)
        ensures l !in Latest(s.db, writes).links
      {
        GoneStaysGone(s.db, writes, l, facts);
      }
    }
  }

  /** For a verdict that nobody has disturbed so far: exactly if others may touch none of the facts until its turn. */
  lemma UndisturbedVerdictIsSafeIff(states: seq<Sweeping>, turns: seq<Turn>, r: nat, p: nat, l: Id, facts: set<Fact>)
    requires IsRun(states, turns) && JudgedAt(states, turns, r, p, l) && WindowIsQuiet(states, turns, r, p, |turns|, l)
    requires var s := states[|states| - 1];
             l in s.db.links && s.verdicts != [] && s.verdicts[0] == Verdict(l, RestorableAndCurrentlyUsable)
    ensures UsableWhenRestored(states[|states| - 1], l, facts) <==> facts == {}
  {
    QuietVerdictStands(states, turns, r, p, |turns|, l);
    NowIsFixed(states, turns, |turns|);
    RestoredIsUsableIff(states, turns, l, facts);
  }

  lemma NowIsFixed(states: seq<Sweeping>, turns: seq<Turn>, i: nat)
    requires IsRun(states, turns) && i < |states|
    ensures states[i].now == states[0].now
  {
    VerdictsGoByReads(states, turns, i);
  }

  lemma UnusableWrite(s: Sweeping, l: Id, facts: set<Fact>) returns (bad: Db)
    requires Sound(s.db) && l in s.db.links && !(facts == {} && Usable(s.db, l, s.now))
    ensures Sound(bad) && TouchesOnly(s.db, bad, l, facts)
    ensures l in bad.links && bad.links[l].status == DISABLED && !Usable(bad, l, s.now)
  {
    if Usable(s.db, l, s.now) {
      var fact :| fact in facts;
      RestorableIff(s.db.links[l], ProvenanceOf(s.db.canonicals, s.db.creations, l), s.now);
      SpoiledIsUnusable(s.db, l, fact, s.now);
      bad := Spoiled(s.db, l, fact, s.now);
    } else {
      bad := s.db.(links := s.db.links[l := s.db.links[l].(status := DISABLED)]);
      UntouchedIsJudgedAlike(s.db, bad, l, s.now);
    }
  }

  lemma {:induction false} GoneStaysGone(db: Db, writes: seq<Db>, l: Id, facts: set<Fact>)
    requires MayWrite(db, writes, l, facts) && l !in db.links
    ensures l !in Latest(db, writes).links
  {
    if writes != [] {
      var n := |writes| - 1;
      forall i | 0 <= i < n
        ensures Sound(writes[..n][i]) && TouchesOnly(Latest(db, writes[..n][..i]), writes[..n][i], l, facts)
      {
        assert writes[..n][..i] == writes[..i];
      }
      GoneStaysGone(db, writes[..n], l, facts);
      assert TouchesOnly(Latest(db, writes[..n]), writes[n], l, facts);
    }
  }

  lemma OneMember(m: Member)
    requires m.sortOrder == 0 && m.video.Some?
    ensures MembershipFinding([m], CANONICAL).None?
  {
    assert SortOrders([m]) == {0};
    AnyMemberIff([m], (m: Member) => m.video.None?);
  }

  /** A video that stopped being READY after the page was read: its link is restored all the same. */
  lemma StaleVerdictRestores()
    ensures var video := Video(true, true, true, {1});
            var link := Link(1, DISABLED, None, None, 0, [Member(0, 5, Some(video))]);
            var gone := link.(members := [Member(0, 5, Some(video.(ready := false)))]);
            var db := Db([2], map[2 := link], {2}, []);
            var s := Start(db.(links := map[2 := gone]), 0).(verdicts := Classify(db, Snapshot(db, [2]), 0));
            && s.verdicts == [Verdict(2, RestorableAndCurrentlyUsable)]
            && ClassifyIn(s.db, 2, 0) == Skipped(MEMBER_NOT_READY)
            && Examine(s).db.links[2].status == ACTIVE
  {
    var video := Video(true, true, true, {1});
    var link := Link(1, DISABLED, None, None, 0, [Member(0, 5, Some(video))]);
    var gone := link.(members := [Member(0, 5, Some(video.(ready := false)))]);
    OneMember(Member(0, 5, Some(video)));
    OneMember(Member(0, 5, Some(video.(ready := false))));
    RestorableIff(link, CANONICAL, 0);
    assert gone.members[0].video == Some(video.(ready := false));
    AnyMemberIff(gone.members, (m: Member) => Lacks(m, (v: Video) => v.ready));
    var db := Db([2], map[2 := link], {2}, []);
    assert Snapshot(db, [2][1..]) == [];
    assert Snapshot(db, [2]) == [Row(2, link)];
  }
}
