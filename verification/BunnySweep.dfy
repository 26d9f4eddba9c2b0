/**
 The offline reconciliation with Bunny: every Bunny-backed video is compared with the remote library,
 page by page. The remote library is an oracle from video ids to answers; within a batch the answers
 are collected by the worker pool before any row is written.
 */
module BunnySweep {
  import opened Wrappers
  import opened BunnyAsset
  import opened JsText
  import opened Paging

  /** Only an authoritative 404 is `Gone`; timeouts, rate limits and the like are `Unanswered`. */
  datatype Answer = Present(state: ProcessingState) | Gone | Unanswered

  type Remote = string -> Answer
  /** The timestamp written for a video, one per batch. */
  type Clock = Id -> string

  datatype Outcome =
    | Available(nextStatus: Status, recovered: bool) | RemoteMissing(nextStatus: Status) | FailedRequest
    | SkippedNotBunny

  function OutcomeOf(v: Video, remote: Remote): Outcome {
    match Classify(v)
    case Bunny(id, _) =>
      (match remote(id)
       case Present(state) => Available(LocalStatus(v.status, state), IsRemoteMissing(v.metadata))
       case Gone => RemoteMissing(RemoteMissingStatus(v.status))
       case Unanswered => FailedRequest)
    case _ => SkippedNotBunny
  }

  /** The row after an outcome, and whether it was written. */
  function ApplyOutcome(v: Video, outcome: Outcome, now: string): (Video, bool) {
    match outcome
    case RemoteMissing(next) =>
      var (marked, changed) := ApplyMarker(v.metadata, now);
      if !changed && next == v.status then (v, false)
      else (v.(status := next, metadata := if changed then marked else v.metadata), true)
    case Available(next, recovered) =>
      var (cleared, changed) := if recovered then ClearMarker(v.metadata) else (JObject(map[]), false);
      if !changed && next == v.status then (v, false)
      else (v.(status := next, metadata := if changed then cleared else v.metadata), true)
    case _ => (v, false)
  }

  /** The same question as the sweep asks it before writing, and all a dry run knows. */
  predicate WouldChange(v: Video, outcome: Outcome, now: string) {
    match outcome
    case RemoteMissing(next) => ApplyMarker(v.metadata, now).1 || next != v.status
    case Available(next, recovered) => (recovered && ClearMarker(v.metadata).1) || next != v.status
    case _ => false
  }

  lemma PredictionIsExact(v: Video, outcome: Outcome, now: string)
    ensures WouldChange(v, outcome, now) == ApplyOutcome(v, outcome, now).1
    ensures !WouldChange(v, outcome, now) ==> ApplyOutcome(v, outcome, now).0 == v
  {
  }

  /** Once an answer has been applied, the same answer changes nothing more, at whatever time it comes. */
  lemma AnswerSettles(v: Video, remote: Remote, now: string, later: string)
    ensures var settled := ApplyOutcome(v, OutcomeOf(v, remote), now).0;
            && Classify(settled) == Classify(v)
            && settled.provider == v.provider && settled.sourceType == v.sourceType
            && ApplyOutcome(settled, OutcomeOf(settled, remote), later) == (settled, false)
  {
    if Classify(v).Bunny? {
      MarkerOperationsSettle(v, now, later);
      var settled := ApplyOutcome(v, OutcomeOf(v, remote), now).0;
      assert settled == v.(metadata := settled.metadata).(status := settled.status);
      assert Classify(settled) == Classify(v.(metadata := settled.metadata));
      MarkerOperationsSettle(settled, later, later);
    }
  }

  /**
   A row becomes remote-missing only on an authoritative 404, and stops being so only when Bunny has the
   video again.
   */
  lemma OnlyAnAnswerMarks(v: Video, remote: Remote, now: string)
    ensures var row := ApplyOutcome(v, OutcomeOf(v, remote), now).0;
            && (!IsRemoteMissing(v.metadata) && IsRemoteMissing(row.metadata) ==>
                  Classify(v).Bunny? && remote(Classify(v).bunnyVideoId).Gone?)
            && (IsRemoteMissing(v.metadata) && !IsRemoteMissing(row.metadata) ==>
                  Classify(v).Bunny? && remote(Classify(v).bunnyVideoId).Present?)
            && (Classify(v).Bunny? && remote(Classify(v).bunnyVideoId).Gone? ==>
                  IsRemoteMissing(row.metadata) && row.status in {FAILED, DISABLED})
            && (Classify(v).Bunny? && remote(Classify(v).bunnyVideoId).Present? ==> !IsRemoteMissing(row.metadata))
            && (!Classify(v).Bunny? || remote(Classify(v).bunnyVideoId).Unanswered? ==> row == v)
  {
    MarkerOperationsSettle(v, now, now);
  }

  // ---------------------------------------------------------------- between the read and the write

  /**
   update({id}): the columns that the answer changes in the row as it was read, on the row as it is by then.
   */
  function LateOutcome(row: Video, read: Video, outcome: Outcome, now: string): Video {
    match outcome
    case RemoteMissing(next) =>
      var (marked, changed) := ApplyMarker(read.metadata, now);
      row.(status := if next != read.status then next else row.status,
           metadata := if changed then marked else row.metadata)
    case Available(next, recovered) =>
      var (cleared, changed) := if recovered then ClearMarker(read.metadata) else (JObject(map[]), false);
      row.(status := if next != read.status then next else row.status,
           metadata := if changed then cleared else row.metadata)
    case _ => row
  }

  /** On an unchanged row it is what the sweep means to do. */
  lemma LateOutcomeOfTheRowRead(v: Video, outcome: Outcome, now: string)
    ensures LateOutcome(v, v, outcome, now) == ApplyOutcome(v, outcome, now).0
  {
  }

  /** The answer leaves the status that was read as it is. */
  predicate LeavesStatus(read: Video, remote: Remote) {
    match Classify(read)
    case Bunny(id, _) =>
      (match remote(id)
       case Present(Ready) => read.status in {READY, DISABLED}
       case Present(Failed) => read.status in {READY, DISABLED, FAILED}
       case Present(Processing) => read.status in {READY, DISABLED, PROCESSING}
       case Gone => read.status in {FAILED, DISABLED}
       case Unanswered => true)
    case _ => true
  }

  /**
   A video that an administrator disabled after it was read stays DISABLED exactly if the answer leaves
   the status read.
   */
  lemma LateOutcomeKeepsDisabledIff(row: Video, read: Video, remote: Remote, now: string)
    requires row.status == DISABLED
    ensures LateOutcome(row, read, OutcomeOf(read, remote), now).status == DISABLED <==> LeavesStatus(read, remote)
  {
  }

  /** Whatever Bunny answers, it stays DISABLED exactly if it was DISABLED when read, or is no Bunny video. */
  lemma DisabledAlwaysSurvivesIff(row: Video, read: Video, now: string)
    requires row.status == DISABLED
    ensures (forall remote: Remote :: LateOutcome(row, read, OutcomeOf(read, remote), now).status == DISABLED)
            <==> read.status == DISABLED || !Classify(read).Bunny?
  {
    if Classify(read).Bunny? && read.status != DISABLED {
      var remote: Remote := if read.status == READY then (id: string) => Gone else (id: string) => Present(Ready);
      LateOutcomeKeepsDisabledIff(row, read, remote, now);
      assert LateOutcome(row, read, OutcomeOf(read, remote), now).status != DISABLED;
    } else {
      forall remote: Remote
        ensures LateOutcome(row, read, OutcomeOf(read, remote), now).status == DISABLED
      {
        LateOutcomeKeepsDisabledIff(row, read, remote, now);
      }
    }
  }

  /** A READY video, disabled while Bunny answers 404: the sweep makes it FAILED. */
  lemma DisabledCanBeOverwritten(now: string)
    ensures var read := Video(READY, BUNNY, EMBED, Some("a"), Some("a"),
                              JObject(map[BUNNY_STREAM := JObject(map[VIDEO_ID := JString("a")])]));
            LateOutcome(read.(status := DISABLED), read, OutcomeOf(read, (id: string) => Gone), now).status == FAILED
  {
    TrimOfTrimmed("a");
    var read := Video(READY, BUNNY, EMBED, Some("a"), Some("a"),
                      JObject(map[BUNNY_STREAM := JObject(map[VIDEO_ID := JString("a")])]));
    assert RecordAt(read.metadata, BUNNY_STREAM) == Some(JObject(map[VIDEO_ID := JString("a")]));
    assert Classify(read) == Bunny("a", TrimmedAt(JObject(map[VIDEO_ID := JString("a")]), LIBRARY_ID));
  }

  // ---------------------------------------------------------------- the summary

  datatype Summary = Summary(
    checked: nat, available: nat, remoteMissing: nat, failedRequests: nat, updated: nat, recovered: nat,
        skippedNotBunny: nat)

  const EMPTY := Summary(0, 0, 0, 0, 0, 0, 0)

  function Count(s: Summary, outcome: Outcome, updated: bool): Summary {
    var t := s.(updated := s.updated + if updated then 1 else 0);
    match outcome
    case SkippedNotBunny => t.(skippedNotBunny := s.skippedNotBunny + 1)
    case FailedRequest => t.(checked := s.checked + 1, failedRequests := s.failedRequests + 1)
    case RemoteMissing(_) => t.(checked := s.checked + 1, remoteMissing := s.remoteMissing + 1)
    case Available(_, recovered) =>
      t.(checked := s.checked + 1, available := s.available + 1, recovered := s.recovered + if recovered then 1 else 0)
  }

  type Table = map<Id, Video>

  function ReconcileOne(videos: Table, s: Summary, l: Id, remote: Remote, now: Clock, apply: bool): (Table, Summary)
    requires l in videos
  {
    var v := videos[l];
    var outcome := OutcomeOf(v, remote);
    var (row, changed) := ApplyOutcome(v, outcome, now(l));
    (if apply then videos[l := row] else videos, Count(s, outcome, changed))
  }

  function Sweep(videos: Table, s: Summary, ids: seq<Id>, remote: Remote, now: Clock, apply: bool)
    : (r: (Table, Summary))
    requires forall l :: l in ids ==> l in videos
    ensures r.0.Keys == videos.Keys
  {
    if ids == [] then (videos, s)
    else
      var (before, counted) := Sweep(videos, s, ids[..|ids| - 1], remote, now, apply);
      ReconcileOne(before, counted, ids[|ids| - 1], remote, now, apply)
  }

  lemma {:induction false} SweepAppend(videos: Table, s: Summary, ids: seq<Id>, more: seq<Id>, remote: Remote,
                                       now: Clock, apply: bool)
    requires forall l :: l in ids + more ==> l in videos
    ensures var (mid, counted) := Sweep(videos, s, ids, remote, now, apply);
            Sweep(videos, s, ids + more, remote, now, apply) == Sweep(mid, counted, more, remote, now, apply)
  {
    if more == [] {
      assert ids + more == ids;
    } else {
      SweepAppend(videos, s, ids, more[..|more| - 1], remote, now, apply);
      assert (ids + more)[..|ids + more| - 1] == ids + more[..|more| - 1];
    }
  }

  /** Each row ends as its own answer makes it; a row that is not visited stays. */
  lemma {:induction false} RowsAfterSweep(videos: Table, s: Summary, ids: seq<Id>, remote: Remote, now: Clock,
                                          apply: bool, l: Id)
    requires Ascending(ids) && (forall k :: k in ids ==> k in videos) && l in videos
    ensures Sweep(videos, s, ids, remote, now, apply).0[l] ==
              if apply && l in ids then ApplyOutcome(videos[l], OutcomeOf(videos[l], remote), now(l)).0 else videos[l]
  {
    if ids != [] {
      var n := |ids| - 1;
      RowsAfterSweep(videos, s, ids[..n], remote, now, apply, l);
      NotYetVisited(ids, n);
      assert ids == ids[..n] + [ids[n]];
    }
  }

  predicate Conserved(s: Summary, visited: nat) {
    s.checked == s.available + s.remoteMissing + s.failedRequests && s.checked + s.skippedNotBunny == visited
    && s.updated <= s.available + s.remoteMissing && s.recovered <= s.available
  }

  lemma CountIsConserved(s: Summary, v: Video, outcome: Outcome, now: string, n: nat)
    requires Conserved(s, n)
    ensures Conserved(Count(s, outcome, ApplyOutcome(v, outcome, now).1), n + 1)
  {
  }

  lemma {:induction false} SweepIsConserved(videos: Table, ids: seq<Id>, remote: Remote, now: Clock, apply: bool)
    requires forall l :: l in ids ==> l in videos
    ensures Conserved(Sweep(videos, EMPTY, ids, remote, now, apply).1, |ids|)
  {
    if ids != [] {
      var n := |ids| - 1;
      SweepIsConserved(videos, ids[..n], remote, now, apply);
      var (before, counted) := Sweep(videos, EMPTY, ids[..n], remote, now, apply);
      CountIsConserved(counted, before[ids[n]], OutcomeOf(before[ids[n]], remote), now(ids[n]), n);
    }
  }

  function RowsOf(videos: Table, ids: seq<Id>): seq<Video>
    requires forall l :: l in ids ==> l in videos
  {
    seq(|ids|, i requires 0 <= i < |ids| => videos[ids[i]])
  }

  function HowMany(rows: seq<Video>, test: Video -> bool): nat {
    if rows == [] then 0
    else HowMany(rows[..|rows| - 1], test) + if test(rows[|rows| - 1]) then 1 else 0
  }

  predicate Answered(v: Video, remote: Remote, test: Answer -> bool) {
    Classify(v).Bunny? && test(remote(Classify(v).bunnyVideoId))
  }

  /** Each counter is the number of rows, as they were at the start, that it names. */
  lemma {:induction false} CountersAreExact(videos: Table, ids: seq<Id>, remote: Remote, now: Clock, apply: bool)
    requires Ascending(ids) && forall l :: l in ids ==> l in videos
    ensures var s, rows := Sweep(videos, EMPTY, ids, remote, now, apply).1, RowsOf(videos, ids);
            && s.available == HowMany(rows, (v: Video) => Answered(v, remote, (a: Answer) => a.Present?))
            && s.recovered == HowMany(rows, (v: Video) => Answered(v, remote, (a: Answer) => a.Present?)
                                                          && IsRemoteMissing(v.metadata))
            && s.remoteMissing == HowMany(rows, (v: Video) => Answered(v, remote, (a: Answer) => a == Gone))
            && s.failedRequests == HowMany(rows, (v: Video) => Answered(v, remote, (a: Answer) => a == Unanswered))
            && s.skippedNotBunny == HowMany(rows, (v: Video) => !Classify(v).Bunny?)
  {
    if ids != [] {
      var n := |ids| - 1;
      CountersAreExact(videos, ids[..n], remote, now, apply);
      NotYetVisited(ids, n);
      RowsAfterSweep(videos, EMPTY, ids[..n], remote, now, apply, ids[n]);
      assert RowsOf(videos, ids)[..n] == RowsOf(videos, ids[..n]);
      assert RowsOf(videos, ids)[n] == videos[ids[n]];
    }
  }

  /** The visited rows that are no longer what they were. */
  function Changed(videos: Table, after: Table, ids: seq<Id>): set<Id> {
    set l | l in ids && l in videos && l in after && after[l] != videos[l]
  }

  lemma OneMoreVisited(videos: Table, before: Table, ids: seq<Id>, l: Id, row: Video)
    requires l !in ids && l in videos
    ensures |Changed(videos, before[l := row], ids + [l])| ==
              |Changed(videos, before, ids)| + if row != videos[l] then 1 else 0
  {
    var was := Changed(videos, before, ids);
    assert Changed(videos, before[l := row], ids + [l]) == was + if row != videos[l] then {l} else {};
  }

  lemma LastRowOfASweep(videos: Table, ids: seq<Id>, remote: Remote, now: Clock) returns (row: Video)
    requires ids != [] && Ascending(ids) && forall l :: l in ids ==> l in videos
    ensures var n := |ids| - 1;
            var (before, s) := Sweep(videos, EMPTY, ids[..n], remote, now, true);
            var (after, t) := Sweep(videos, EMPTY, ids, remote, now, true);
            && ids[n] !in ids[..n] && after == before[ids[n] := row]
            && t.updated == s.updated + if row != videos[ids[n]] then 1 else 0
  {
    var n := |ids| - 1;
    NotYetVisited(ids, n);
    RowsAfterSweep(videos, EMPTY, ids[..n], remote, now, true, ids[n]);
    ChangeIsReal(videos[ids[n]], remote, now(ids[n]));
    row := ApplyOutcome(videos[ids[n]], OutcomeOf(videos[ids[n]], remote), now(ids[n])).0;
  }

  lemma PrefixAscends(ids: seq<Id>, n: nat)
    requires Ascending(ids) && n <= |ids|
    ensures Ascending(ids[..n])
  {
  }

  /** `updated` is the number of rows that an apply leaves different from what they were. */
  lemma {:induction false} UpdatedCountsChanges(videos: Table, ids: seq<Id>, remote: Remote, now: Clock)
    requires Ascending(ids) && forall l :: l in ids ==> l in videos
    ensures var (after, s) := Sweep(videos, EMPTY, ids, remote, now, true);
            s.updated == |Changed(videos, after, ids)|
  {
    if ids != [] {
      var rest, last := ids[..|ids| - 1], ids[|ids| - 1];
      PrefixAscends(ids, |ids| - 1);
      UpdatedCountsChanges(videos, rest, remote, now);
      var row := LastRowOfASweep(videos, ids, remote, now);
      OneMoreVisited(videos, Sweep(videos, EMPTY, rest, remote, now, true).0, rest, last, row);
      assert ids == rest + [last];
    }
  }

  lemma ChangeIsReal(v: Video, remote: Remote, now: string)
    ensures var (row, changed) := ApplyOutcome(v, OutcomeOf(v, remote), now);
            changed <==> row != v
  {
    MarkerOperationsSettle(v, now, now);
    PredictionIsExact(v, OutcomeOf(v, remote), now);
  }

  /** A dry run reports exactly what an apply reports, `updated` included, and writes nothing. */
  lemma {:induction false} DryRunPredictsApply(videos: Table, ids: seq<Id>, remote: Remote, now: Clock)
    requires Ascending(ids) && forall l :: l in ids ==> l in videos
    ensures Sweep(videos, EMPTY, ids, remote, now, false) == (videos, Sweep(videos, EMPTY, ids, remote, now, true).1)
  {
    if ids != [] {
      var n := |ids| - 1;
      DryRunPredictsApply(videos, ids[..n], remote, now);
      NotYetVisited(ids, n);
      RowsAfterSweep(videos, EMPTY, ids[..n], remote, now, true, ids[n]);
    }
  }

  predicate Settled(v: Video, remote: Remote, now: string) {
    ApplyOutcome(v, OutcomeOf(v, remote), now) == (v, false)
  }

  lemma {:induction false} QuietSweep(videos: Table, ids: seq<Id>, remote: Remote, now: Clock)
    requires forall l :: l in ids ==> l in videos && Settled(videos[l], remote, now(l))
    ensures Sweep(videos, EMPTY, ids, remote, now, true).0 == videos
    ensures Sweep(videos, EMPTY, ids, remote, now, true).1.updated == 0
  {
    if ids != [] {
      var n := |ids| - 1;
      QuietSweep(videos, ids[..n], remote, now);
      assert ids[n] in ids;
      assert videos[ids[n] := videos[ids[n]]] == videos;
    }
  }

  // ---------------------------------------------------------------- paging

  predicate IsCandidate(videos: Table, l: Id, cursor: Option<Id>) {
    l in videos && videos[l].provider == BUNNY && videos[l].sourceType == EMBED && (cursor.Some? ==> l > cursor.value)
  }

  /** The Bunny-backed videos after the cursor, in order. */
  function CandidatesAfter(order: seq<Id>, videos: Table, cursor: Option<Id>): seq<Id> {
    if order == [] then []
    else
      var rest := CandidatesAfter(order[1..], videos, cursor);
      if IsCandidate(videos, order[0], cursor) then [order[0]] + rest else rest
  }

  lemma {:induction false} CandidatesHas(order: seq<Id>, videos: Table, cursor: Option<Id>)
    requires Ascending(order)
    ensures Ascending(CandidatesAfter(order, videos, cursor))
    ensures forall k :: k in CandidatesAfter(order, videos, cursor) <==> k in order && IsCandidate(videos, k, cursor)
  {
    if order != [] {
      CandidatesHas(order[1..], videos, cursor);
      SplitAscending(order, 1);
      assert order[..1] == [order[0]];
      var rest := CandidatesAfter(order[1..], videos, cursor);
      forall k, l | k in [order[0]] && l in rest
        ensures k < l
      {
        assert k in order[..1] && l in order[1..];
      }
      AppendAscending([order[0]], rest);
    }
  }

  /** A sweep changes no provider and no source type, so the candidates stay the same. */
  lemma {:induction false} SweepKeepsCandidates(order: seq<Id>, videos: Table, after: Table, cursor: Option<Id>)
    requires videos.Keys == after.Keys
    requires forall l :: l in videos ==>
               after[l].provider == videos[l].provider && after[l].sourceType == videos[l].sourceType
    ensures CandidatesAfter(order, after, cursor) == CandidatesAfter(order, videos, cursor)
  {
    if order != [] { SweepKeepsCandidates(order[1..], videos, after, cursor); }
  }

  function Reach(order: seq<Id>, videos: Table, batchSize: nat, maxBatches: nat): seq<Id> {
    Take(CandidatesAfter(order, videos, None), batchSize * maxBatches)
  }

  function VisitedIn(order: seq<Id>, videos: Table, batchSize: nat, batches: nat): seq<Id> {
    Take(CandidatesAfter(order, videos, None), Times(batchSize, batches))
  }

  lemma SweepKeepsKinds(videos: Table, ids: seq<Id>, remote: Remote, now: Clock, apply: bool)
    requires Ascending(ids) && forall l :: l in ids ==> l in videos
    ensures var after := Sweep(videos, EMPTY, ids, remote, now, apply).0;
            forall l :: l in videos ==>
              after[l].provider == videos[l].provider && after[l].sourceType == videos[l].sourceType
  {
    forall l | l in videos
      ensures var after := Sweep(videos, EMPTY, ids, remote, now, apply).0;
              after[l].provider == videos[l].provider && after[l].sourceType == videos[l].sourceType
    {
      RowsAfterSweep(videos, EMPTY, ids, remote, now, apply, l);
      AnswerSettles(videos[l], remote, now(l), now(l));
    }
  }

  /** In the middle of a sweep, the next page is the next stretch of the candidates there were at the start. */
  lemma NextPage(order: seq<Id>, videos: Table, p: nat, take: nat, remote: Remote, now: Clock, apply: bool)
    requires Ascending(order) && p <= |CandidatesAfter(order, videos, None)|
    ensures var all := CandidatesAfter(order, videos, None);
            && Ascending(all) && (forall l :: l in all ==> l in videos) && (forall l :: l in all[..p] ==> l in videos)
            && var rows := Sweep(videos, EMPTY, all[..p], remote, now, apply).0;
               Take(CandidatesAfter(order, rows, LastOf(all[..p])), take) == Take(all[p..], take)
  {
    var all := CandidatesAfter(order, videos, None);
    CandidatesHas(order, videos, None);
    SplitAscending(all, p);
    SweepKeepsKinds(videos, all[..p], remote, now, apply);
    var rows := Sweep(videos, EMPTY, all[..p], remote, now, apply).0;
    SweepKeepsCandidates(order, videos, rows, LastOf(all[..p]));
    CandidatesHas(order, videos, LastOf(all[..p]));
    forall k
      ensures k in CandidatesAfter(order, videos, LastOf(all[..p])) <==> k in all[p..]
    {
      AfterCursor(all, p, k);
    }
    AscendingIsUnique(CandidatesAfter(order, videos, LastOf(all[..p])), all[p..]);
  }

  // ---------------------------------------------------------------- whole runs

  function RunSweep(order: seq<Id>, videos: Table, batchSize: nat, maxBatches: nat, remote: Remote, now: Clock,
                    apply: bool): (Table, Summary)
    requires forall l :: l in Reach(order, videos, batchSize, maxBatches) ==> l in videos
  {
    Sweep(videos, EMPTY, Reach(order, videos, batchSize, maxBatches), remote, now, apply)
  }

  lemma ReachIsInTable(order: seq<Id>, videos: Table, batchSize: nat, maxBatches: nat)
    requires Ascending(order)
    ensures Ascending(Reach(order, videos, batchSize, maxBatches))
    ensures forall l :: l in Reach(order, videos, batchSize, maxBatches) ==> l in videos
  {
    CandidatesHas(order, videos, None);
    SplitAscending(CandidatesAfter(order, videos, None), |Reach(order, videos, batchSize, maxBatches)|);
    assert Reach(order, videos, batchSize, maxBatches) ==
             CandidatesAfter(order, videos, None)[..|Reach(order, videos, batchSize, maxBatches)|];
  }

  /**
   Convergence: while Bunny answers the same, a second apply visits the same videos and updates none,
   whatever the batches reach; and a dry run reports what an apply does.
   */
  lemma SecondApplyUpdatesNothing(order: seq<Id>, videos: Table, batchSize: nat, maxBatches: nat, remote: Remote,
                                  now: Clock, later: Clock)
    requires Ascending(order)
    ensures forall l :: l in Reach(order, videos, batchSize, maxBatches) ==> l in videos
    ensures var (after, report) := RunSweep(order, videos, batchSize, maxBatches, remote, now, true);
            && RunSweep(order, videos, batchSize, maxBatches, remote, now, false) == (videos, report)
            && Conserved(report, |Reach(order, videos, batchSize, maxBatches)|)
            && Reach(order, after, batchSize, maxBatches) == Reach(order, videos, batchSize, maxBatches)
            && (forall l :: l in Reach(order, after, batchSize, maxBatches) ==> l in after)
            && RunSweep(order, after, batchSize, maxBatches, remote, later, true).0 == after
            && RunSweep(order, after, batchSize, maxBatches, remote, later, true).1.updated == 0
  {
    ReachIsInTable(order, videos, batchSize, maxBatches);
    var reach := Reach(order, videos, batchSize, maxBatches);
    var after := RunSweep(order, videos, batchSize, maxBatches, remote, now, true).0;
    DryRunPredictsApply(videos, reach, remote, now);
    SweepIsConserved(videos, reach, remote, now, true);
    SweepKeepsKinds(videos, reach, remote, now, true);
    SweepKeepsCandidates(order, videos, after, None);
    forall l | l in reach
      ensures l in after && Settled(after[l], remote, later(l))
    {
      RowsAfterSweep(videos, EMPTY, reach, remote, now, true, l);
      AnswerSettles(videos[l], remote, now(l), later(l));
    }
    QuietSweep(after, reach, remote, later);
  }

  // ---------------------------------------------------------------- the script

  class ReconcileBunnyVideos {
    var videos: Table
    const order: seq<Id>

    method FindCandidates(cursor: Option<Id>, take: nat) returns (page: seq<Id>)
      ensures page == Take(CandidatesAfter(order, videos, cursor), take)
    {
      page := [];
      var rest := order;
      while rest != [] && |page| < take
        invariant |page| <= take && page + CandidatesAfter(rest, videos, cursor) ==
                    CandidatesAfter(order, videos, cursor)
        decreases |rest|
      {
        var l := rest[0];
        if l in videos && videos[l].provider == BUNNY && videos[l].sourceType == EMBED
            && (cursor.Some? ==> l > cursor.value) {
          assert page + CandidatesAfter(rest, videos, cursor) ==
                   (page + [l]) + CandidatesAfter(rest[1..], videos, cursor);
          page := page + [l];
        }
        rest := rest[1..];
      }
    }

    /** One batch: all answers first, from the rows as read, then the counting and the writes. */
    method ReconcileBatch(s: Summary, batch: seq<Id>, remote: Remote, now: Clock, apply: bool)
      returns (counted: Summary)
      requires Ascending(batch) && forall l :: l in batch ==> l in videos
      modifies `videos
      ensures (videos, counted) == Sweep(old(videos), s, batch, remote, now, apply)
    {
      var read := videos;
      counted := s;
      for i := 0 to |batch|
        invariant videos.Keys == read.Keys
        invariant (videos, counted) == Sweep(read, s, batch[..i], remote, now, apply)
      {
        assert batch[..i + 1][..i] == batch[..i];
        var l := batch[i];
        NotYetVisited(batch, i);
        RowsAfterSweep(read, s, batch[..i], remote, now, apply, l);
        var video := read[l];
        var outcome := OutcomeOf(video, remote);
        PredictionIsExact(video, outcome, now(l));
        var updated := WouldChange(video, outcome, now(l));
        if apply {
          videos := videos[l := ApplyOutcome(video, outcome, now(l)).0];
        }
        counted := Count(counted, outcome, updated);
      }
      assert batch[..|batch|] == batch;
    }

    method NextBatch(s: Summary, cursor: Option<Id>, batchSize: nat, remote: Remote, now: Clock, apply: bool,
                     ghost start: Table, ghost batch: nat, ghost maxBatches: nat)
      returns (counted: Summary, next: Option<Id>, more: bool, ghost done: seq<Id>)
      requires Ascending(order) && batch < maxBatches
      requires var visited := VisitedIn(order, start, batchSize, batch);
               && cursor == LastOf(visited) && (forall l :: l in visited ==> l in start)
               && (videos, s) == Sweep(start, EMPTY, visited, remote, now, apply)
      modifies `videos
      ensures done == VisitedIn(order, start, batchSize, batch + 1) && next == LastOf(done)
      ensures !more ==> done == VisitedIn(order, start, batchSize, maxBatches)
      ensures (forall l :: l in done ==> l in start)
                && (videos, counted) == Sweep(start, EMPTY, done, remote, now, apply)
    {
      ghost var all, visited := CandidatesAfter(order, start, None), VisitedIn(order, start, batchSize, batch);
      BatchTakes(all, batchSize, batch, maxBatches);
      NextPage(order, start, |visited|, batchSize, remote, now, apply);
      var page := FindCandidates(cursor, batchSize);
      PageContinues(all, visited, page);
      SweepAppend(start, EMPTY, visited, page, remote, now, apply);
      counted := ReconcileBatch(s, page, remote, now, apply);
      done, next, more := visited + page, cursor, page != [];
      if more {
        next := Some(page[|page| - 1]);
      } else {
        assert done == visited;
      }
    }

    method Reconcile(batchSize: nat, maxBatches: nat, remote: Remote, now: Clock, apply: bool)
      returns (summary: Summary)
      requires Ascending(order)
      modifies `videos
      ensures forall l :: l in Reach(order, old(videos), batchSize, maxBatches) ==> l in old(videos)
      ensures (videos, summary) == RunSweep(order, old(videos), batchSize, maxBatches, remote, now, apply)
    {
      ghost var start, visited := videos, [];
      summary := EMPTY;
      var cursor: Option<Id> := None;
      var batch, more := 0, true;
      while batch < maxBatches && more
        invariant 0 <= batch <= maxBatches
        invariant visited == VisitedIn(order, start, batchSize, batch) && cursor == LastOf(visited)
        invariant !more ==> visited == VisitedIn(order, start, batchSize, maxBatches)
        invariant (forall l :: l in visited ==> l in start)
                    && (videos, summary) == Sweep(start, EMPTY, visited, remote, now, apply)
        decreases maxBatches - batch
      {
        summary, cursor, more, visited :=
            NextBatch(summary, cursor, batchSize, remote, now, apply, start, batch, maxBatches);
        batch := batch + 1;
      }
      TimesIsProduct(batchSize, maxBatches);
    }
  }

  /** A page taken from where the visited ids end continues them in order. */
  lemma PageContinues(all: seq<Id>, visited: seq<Id>, page: seq<Id>)
    requires Ascending(all) && |visited| + |page| <= |all|
    requires visited == all[..|visited|] && page == all[|visited|..][..|page|]
    ensures Ascending(page) && (forall l :: l in visited + page ==> l in all)
  {
    SplitAscending(all, |visited|);
    SplitAscending(all[|visited|..], |page|);
  }
}
