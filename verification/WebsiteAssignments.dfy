/**
 Which videos a website shows: the assignment rows of one website, replaced wholesale, updated in a
 batch, extended by one, or deleted with a purged video.
 */
module WebsiteAssignments {
  import opened Wrappers
  import opened JsText

  datatype VideoId = VideoId(text: string)

  datatype Row = Row(sortOrder: int, isFeatured: bool, active: bool)

  /** The website's rows; (website, video) is a unique key. */
  type Rows = map<VideoId, Row>

  datatype Website = Missing | Found(active: bool)

  /** What the catalogue says of a video: missing ones are not in the map. */
  datatype Video = Video(ready: bool, playable: bool)
  type Catalogue = map<VideoId, Video>

  datatype Error =
    | FeaturedNotRequested | WebsiteNotFound | WebsiteNotActive | VideoNotReady | Overlap | BatchTooLarge
    | VideoNotFound | VideoNotEligible | DuplicateVideo | VideoIdMissing

  datatype BatchResult =
    | Updated(added: seq<VideoId>, removed: seq<VideoId>, untouched: seq<VideoId>, activeTotal: nat)
    | Refused(error: Error)

  const BATCH_MAX_IDS := 100

  // ---------------------------------------------------------------- normalisation

  /** Trimmed, without blanks, each id once, in the order of its first appearance. */
  function NormalizeIds(raw: seq<string>): seq<VideoId> {
    if raw == [] then []
    else
      var rest, id := NormalizeIds(raw[..|raw| - 1]), Trim(raw[|raw| - 1]);
      if id == "" || VideoId(id) in rest then rest else rest + [VideoId(id)]
  }

  ghost predicate Distinct(ids: seq<VideoId>) {
    forall i, j :: 0 <= i < j < |ids| ==> ids[i] != ids[j]
  }

  /** One of the raw strings is this id, but for surrounding whitespace. */
  predicate Mentions(raw: seq<string>, v: VideoId) {
    v.text != "" && exists i :: 0 <= i < |raw| && Trim(raw[i]) == v.text
  }

  lemma MentionsLast(raw: seq<string>, v: VideoId)
    requires raw != []
    ensures Mentions(raw, v) <==> Mentions(raw[..|raw| - 1], v) || (v.text != "" && Trim(raw[|raw| - 1]) == v.text)
  {
    var rest := raw[..|raw| - 1];
    if Mentions(rest, v) {
      var i :| 0 <= i < |rest| && Trim(rest[i]) == v.text;
      assert Trim(raw[i]) == v.text;
    }
    if Mentions(raw, v) {
      var i :| 0 <= i < |raw| && Trim(raw[i]) == v.text;
      if i < |rest| { assert Trim(rest[i]) == v.text; }
    }
  }

  lemma {:induction false} NormalizedIdsAreDistinct(raw: seq<string>)
    ensures Distinct(NormalizeIds(raw))
    ensures forall v :: v in NormalizeIds(raw) <==> Mentions(raw, v)
  {
    if raw != [] {
      NormalizedIdsAreDistinct(raw[..|raw| - 1]);
      forall v
        ensures v in NormalizeIds(raw) <==> Mentions(raw, v)
      {
        MentionsLast(raw, v);
      }
    }
  }

  /** `raw[p]` is the first of the raw strings that is this id. */
  predicate FirstMention(raw: seq<string>, v: VideoId, p: nat) {
    p < |raw| && Trim(raw[p]) == v.text && forall k :: 0 <= k < p ==> Trim(raw[k]) != v.text
  }

  lemma MentionsStay(raw: seq<string>, n: nat, v: VideoId, p: nat)
    requires n <= |raw| && FirstMention(raw[..n], v, p)
    ensures FirstMention(raw, v, p)
  {
    assert forall k :: 0 <= k < n ==> raw[..n][k] == raw[k];
  }

  lemma LastIsFirstMention(raw: seq<string>, v: VideoId)
    requires raw != [] && v.text == Trim(raw[|raw| - 1]) && v.text != "" && v !in NormalizeIds(raw[..|raw| - 1])
    ensures FirstMention(raw, v, |raw| - 1)
  {
    var rest := raw[..|raw| - 1];
    NormalizedIdsAreDistinct(rest);
    forall k | 0 <= k < |rest|
      ensures Trim(raw[k]) != v.text
    {
      assert raw[k] == rest[k] && !Mentions(rest, v);
    }
  }

  /** The ids come in the order in which the list first mentions them; `at` says where. */
  lemma {:induction false} IdsKeepTheirOrder(raw: seq<string>) returns (at: seq<nat>)
    ensures |at| == |NormalizeIds(raw)| && forall i, j :: 0 <= i < j < |at| ==> at[i] < at[j]
    ensures forall i :: 0 <= i < |at| ==> FirstMention(raw, NormalizeIds(raw)[i], at[i])
  {
    at := [];
    if raw != [] {
      var rest, last := raw[..|raw| - 1], VideoId(Trim(raw[|raw| - 1]));
      var ids := NormalizeIds(rest);
      at := IdsKeepTheirOrder(rest);
      forall i | 0 <= i < |at|
        ensures FirstMention(raw, ids[i], at[i])
      {
        MentionsStay(raw, |rest|, ids[i], at[i]);
      }
      if last.text != "" && last !in ids {
        LastIsFirstMention(raw, last);
        at := at + [|rest|];
      }
    }
  }

  // ---------------------------------------------------------------- sort orders

  /** One more than the greatest sortOrder, or 0 for a website without rows. */
  ghost predicate IsNextSortOrder(rows: Rows, next: int) {
    && (rows == map[] ==> next == 0)
    && (forall v :: v in rows ==> rows[v].sortOrder < next)
    && (rows != map[] ==> exists v :: v in rows && rows[v].sortOrder == next - 1)
  }

  function Active(rows: Rows): set<VideoId> {
    set v | v in rows && rows[v].active
  }

  /** sortOrder is unique, at most one row is featured, and a featured row is ACTIVE. */
  ghost predicate Sound(rows: Rows) {
    && (forall v, w :: v in rows && w in rows && v != w ==> rows[v].sortOrder != rows[w].sortOrder)
    && (forall v, w :: v in rows && w in rows && rows[v].isFeatured && rows[w].isFeatured ==> v == w)
    && (forall v :: v in rows && rows[v].isFeatured ==> rows[v].active)
  }

  // ---------------------------------------------------------------- the batch

  /** The assign loop over the rows as read: `next` counts on with every row it has to create. */
  function AssignAll(read: Rows, ids: seq<VideoId>, next: int): (Rows, int) {
    if ids == [] then (read, next)
    else
      var (rows, n) := AssignAll(read, ids[..|ids| - 1], next);
      var v := ids[|ids| - 1];
      if v in read && read[v].active then (rows, n)
      else if v in rows then (rows[v := rows[v].(active := true)], if v in read then n else n + 1)
      else (rows[v := Row(n, false, true)], if v in read then n else n + 1)
  }

  function UnassignAll(read: Rows, rows: Rows, ids: seq<VideoId>): Rows {
    if ids == [] then rows
    else
      var before := UnassignAll(read, rows, ids[..|ids| - 1]);
      var v := ids[|ids| - 1];
      if v !in read || !read[v].active || v !in before then before
      else before[v := before[v].(active := false, isFeatured := false)]
  }

  function Select(ids: seq<VideoId>, wanted: set<VideoId>): seq<VideoId> {
    if ids == [] then []
    else Select(ids[..|ids| - 1], wanted) + if ids[|ids| - 1] in wanted then [ids[|ids| - 1]] else []
  }

  function Reject(ids: seq<VideoId>, unwanted: set<VideoId>): seq<VideoId> {
    if ids == [] then []
    else Reject(ids[..|ids| - 1], unwanted) + if ids[|ids| - 1] in unwanted then [] else [ids[|ids| - 1]]
  }

  function BatchError(website: Website, catalogue: Catalogue, assign: seq<VideoId>, unassign: seq<VideoId>)
    : Option<Error>
  {
    if exists v :: v in unassign && v in assign then Some(Overlap)
    else if |assign| + |unassign| > BATCH_MAX_IDS then Some(BatchTooLarge)
    else if website.Missing? then Some(WebsiteNotFound)
    else if !website.active then Some(WebsiteNotActive)
    else if exists v :: v in assign + unassign && v !in catalogue then Some(VideoNotFound)
    else if exists v :: v in assign && !catalogue[v].playable then Some(VideoNotEligible)
    else None
  }

  lemma BatchIsAcceptedIff(website: Website, catalogue: Catalogue, rawAssign: seq<string>, rawUnassign: seq<string>)
    ensures BatchError(website, catalogue, NormalizeIds(rawAssign), NormalizeIds(rawUnassign)) == None <==>
              && website == Found(true) && (forall v :: !Mentions(rawAssign, v) || !Mentions(rawUnassign, v))
              && |NormalizeIds(rawAssign)| + |NormalizeIds(rawUnassign)| <= 100
              && (forall v :: Mentions(rawAssign, v) ==> v in catalogue && catalogue[v].playable)
              && (forall v :: Mentions(rawUnassign, v) ==> v in catalogue)
  {
    NormalizedIdsAreDistinct(rawAssign);
    NormalizedIdsAreDistinct(rawUnassign);
  }

  /** What the assign loop leaves: every requested id active, nothing else touched, fresh orders for the new rows. */
  lemma {:induction false} AssignAllIs(read: Rows, ids: seq<VideoId>, next: int)
    requires Distinct(ids) && forall v :: v in read ==> read[v].sortOrder < next
    ensures var (rows, n) := AssignAll(read, ids, next);
            && next <= n
            && (forall v :: v in rows <==> v in read || v in ids)
            && (forall v :: v in read ==> rows[v] == read[v].(active := read[v].active || v in ids))
            && (forall v :: v in rows && v !in read ==>
                  rows[v] == Row(rows[v].sortOrder, false, true) && next <= rows[v].sortOrder < n)
            && (forall v, w :: v in rows && w in rows && v !in read && w !in read && v != w ==>
                  rows[v].sortOrder != rows[w].sortOrder)
  {
    if ids != [] {
      var k := |ids| - 1;
      AssignAllIs(read, ids[..k], next);
      assert ids == ids[..k] + [ids[k]];
      assert ids[k] !in ids[..k];
    }
  }

  /** New rows are numbered one after another from `next` on, in the order of the ids. */
  lemma {:induction false} NewRowsAreNumbered(read: Rows, ids: seq<VideoId>, next: int)
    requires Distinct(ids) && forall v :: v in read ==> read[v].sortOrder < next
    ensures var (rows, n) := AssignAll(read, ids, next);
            var created := Reject(ids, read.Keys);
            && n == next + |created|
            && forall k :: 0 <= k < |created| ==> created[k] in rows && rows[created[k]] == Row(next + k, false, true)
  {
    if ids != [] {
      var rest, last := ids[..|ids| - 1], ids[|ids| - 1];
      NewRowsAreNumbered(read, rest, next);
      AssignAllIs(read, rest, next);
      assert last !in rest;
      SelectAndReject(rest, read.Keys);
    }
  }

  lemma {:induction false} UnassignAllIs(read: Rows, rows: Rows, ids: seq<VideoId>)
    ensures var after := UnassignAll(read, rows, ids);
            && (forall v :: v in after <==> v in rows)
            && (forall v :: v in rows ==>
                  after[v] == if v in ids && v in read && read[v].active
                      then rows[v].(active := false, isFeatured := false) else rows[v])
  {
    if ids != [] {
      var k := |ids| - 1;
      UnassignAllIs(read, rows, ids[..k]);
      assert ids == ids[..k] + [ids[k]];
    }
  }

  function Requested(ids: seq<VideoId>): set<VideoId> { set v | v in ids }

  /** The rows after an accepted batch. */
  function BatchRows(rows: Rows, assign: seq<VideoId>, unassign: seq<VideoId>, next: int): Rows {
    UnassignAll(rows, AssignAll(rows, assign, next).0, unassign)
  }

  /** One row after an accepted batch. */
  lemma RowAfterBatch(rows: Rows, assign: seq<VideoId>, unassign: seq<VideoId>, next: int)
    requires forall v :: v in rows ==> rows[v].sortOrder < next
    requires Distinct(assign) && Requested(assign) !! Requested(unassign)
    ensures var after := BatchRows(rows, assign, unassign, next);
            && (forall v :: v in after <==> v in rows || v in assign)
            && (forall v :: v in rows && v in unassign && rows[v].active ==>
                  after[v] == rows[v].(active := false, isFeatured := false))
            && (forall v :: v in rows && !(v in unassign && rows[v].active) ==>
                  after[v] == rows[v].(active := rows[v].active || v in assign))
            && (forall v :: v in after && v !in rows ==>
                  after[v] == Row(after[v].sortOrder, false, true) && next <= after[v].sortOrder)
            && (forall v, w :: v in after && w in after && v !in rows && w !in rows && v != w ==>
                  after[v].sortOrder != after[w].sortOrder)
  {
    AssignAllIs(rows, assign, next);
    UnassignAllIs(rows, AssignAll(rows, assign, next).0, unassign);
  }

  /**
   An accepted batch leaves (old active ∪ assign) \ unassign active, keeps every other row as it was and
   the order and uniqueness of all, and deletes nothing.
   */
  lemma BatchUpdatesTheActiveSet(rows: Rows, assign: seq<VideoId>, unassign: seq<VideoId>, next: int)
    requires Sound(rows) && forall v :: v in rows ==> rows[v].sortOrder < next
    requires Distinct(assign) && Requested(assign) !! Requested(unassign)
    ensures var after := BatchRows(rows, assign, unassign, next);
            && Sound(after)
            && Active(after) == (Active(rows) + Requested(assign)) - Requested(unassign)
            && (forall v :: v in rows ==> v in after && after[v].sortOrder == rows[v].sortOrder)
            && (forall v :: v in rows && v !in assign && v !in unassign ==> after[v] == rows[v])
            && (forall v :: v in after ==> v in rows || v in assign)
  {
    var after := BatchRows(rows, assign, unassign, next);
    RowAfterBatch(rows, assign, unassign, next);
    forall v
      ensures v in Active(after) <==> v in (Active(rows) + Requested(assign)) - Requested(unassign)
    {
      assert v in assign <==> v in Requested(assign);
      assert v in unassign <==> v in Requested(unassign);
    }
    assert Active(after) == (Active(rows) + Requested(assign)) - Requested(unassign);
  }

  /** Undoing a batch restores the active set: assigning what it took away and taking away what it added. */
  lemma BatchCanBeUndone(rows: Rows, assign: seq<VideoId>, unassign: seq<VideoId>, next: int, later: int)
    requires Sound(rows) && forall v :: v in rows ==> rows[v].sortOrder < next
    requires Distinct(assign) && Distinct(unassign) && Requested(assign) !! Requested(unassign)
    requires Requested(assign) !! Active(rows) && Requested(unassign) <= Active(rows)
    requires forall v :: v in BatchRows(rows, assign, unassign, next) ==>
               BatchRows(rows, assign, unassign, next)[v].sortOrder < later
    ensures Active(BatchRows(BatchRows(rows, assign, unassign, next), unassign, assign, later)) == Active(rows)
  {
    BatchUpdatesTheActiveSet(rows, assign, unassign, next);
    BatchUpdatesTheActiveSet(BatchRows(rows, assign, unassign, next), unassign, assign, later);
  }

  lemma {:induction false} SelectAndReject(ids: seq<VideoId>, wanted: set<VideoId>)
    ensures multiset(Select(ids, wanted)) + multiset(Reject(ids, wanted)) == multiset(ids)
    ensures forall v :: v in Select(ids, wanted) <==> v in ids && v in wanted
    ensures forall v :: v in Reject(ids, wanted) <==> v in ids && v !in wanted
  {
    if ids != [] {
      var k := |ids| - 1;
      SelectAndReject(ids[..k], wanted);
      assert ids == ids[..k] + [ids[k]];
    }
  }

  /** The three lists partition the ids asked for: those that became active, those that ceased to be, and the rest. */
  ghost predicate Partitions(rows: Rows, assign: seq<VideoId>, unassign: seq<VideoId>, r: BatchResult)
    requires r.Updated?
  {
    && multiset(r.added) + multiset(r.removed) + multiset(r.untouched) == multiset(assign) + multiset(unassign)
    && (forall v :: v in r.added <==> v in assign && v !in Active(rows))
    && (forall v :: v in r.removed <==> v in unassign && v in Active(rows))
    && (forall v :: v in r.untouched <==> (v in assign && v in Active(rows)) || (v in unassign && v !in Active(rows)))
  }

  lemma ListsPartition(rows: Rows, assign: seq<VideoId>, unassign: seq<VideoId>, total: nat)
    ensures Partitions(rows, assign, unassign,
                       Updated(Reject(assign, Active(rows)), Select(unassign, Active(rows)),
                               Select(assign, Active(rows)) + Reject(unassign, Active(rows)), total))
  {
    SelectAndReject(assign, Active(rows));
    SelectAndReject(unassign, Active(rows));
  }

  // ---------------------------------------------------------------- the other operations

  function AssignVideosError(website: Website, catalogue: Catalogue, ids: seq<VideoId>, featured: Option<VideoId>)
    : Option<Error>
  {
    if featured.Some? && featured.value !in ids then Some(FeaturedNotRequested)
    else if website.Missing? then Some(WebsiteNotFound)
    else if !website.active then Some(WebsiteNotActive)
    else if exists v :: v in ids && (v !in catalogue || !catalogue[v].ready) then Some(VideoNotReady)
    else if exists i, j :: 0 <= i < j < |ids| && ids[i] == ids[j] then Some(DuplicateVideo)
    else None
  }

  /** The rows created by a wholesale replacement: position for position, all active, at most one featured. */
  ghost predicate Replaced(rows: Rows, ids: seq<VideoId>, featured: Option<VideoId>) {
    && (forall v :: v in rows <==> v in ids)
    && (forall i :: 0 <= i < |ids| ==> rows[ids[i]] == Row(i, featured == Some(ids[i]), true))
  }

  lemma ReplacementIsSound(rows: Rows, ids: seq<VideoId>, featured: Option<VideoId>)
    requires Replaced(rows, ids, featured)
    ensures Sound(rows) && Active(rows) == Requested(ids)
    ensures featured.Some? && featured.value in ids ==> rows[featured.value].isFeatured
  {
    forall v | v in rows
      ensures exists i :: 0 <= i < |ids| && ids[i] == v
    {
      assert v in ids;
    }
  }

  function SingleError(website: Website, catalogue: Catalogue, v: VideoId): Option<Error> {
    if v.text == "" then Some(VideoIdMissing)
    else if website.Missing? then Some(WebsiteNotFound)
    else if !website.active then Some(WebsiteNotActive)
    else if v !in catalogue then Some(VideoNotFound)
    else if !catalogue[v].playable then Some(VideoNotEligible)
    else None
  }

  /** One video: the row is re-activated where it stands, or appended. */
  function AssignOne(rows: Rows, v: VideoId, next: int): Rows {
    rows[v := if v in rows then rows[v].(active := true) else Row(next, false, true)]
  }

  lemma SingleAssignmentIsSound(rows: Rows, v: VideoId, next: int)
    requires Sound(rows) && (v !in rows ==> IsNextSortOrder(rows, next))
    ensures Sound(AssignOne(rows, v, next)) && Active(AssignOne(rows, v, next)) == Active(rows) + {v}
  {
  }

  lemma PurgeIsSound(rows: Rows, v: VideoId)
    requires Sound(rows)
    ensures Sound(rows - {v}) && Active(rows - {v}) == Active(rows) - {v}
  {
  }

  // ---------------------------------------------------------------- every run

  datatype Op =
    | Batch(website: Website, catalogue: Catalogue, assign: seq<string>, unassign: seq<string>)
    | Replace(website: Website, catalogue: Catalogue, ids: seq<VideoId>, featured: Option<VideoId>)
    | Single(website: Website, catalogue: Catalogue, id: string)
    | Purge(v: VideoId)

  /** What an operation may do to the rows; a refused one does nothing. */
  ghost predicate Does(rows: Rows, op: Op, after: Rows) {
    match op
    case Batch(website, catalogue, rawAssign, rawUnassign) =>
      var assign, unassign := NormalizeIds(rawAssign), NormalizeIds(rawUnassign);
      if BatchError(website, catalogue, assign, unassign).Some? then after == rows
      else exists next :: IsNextSortOrder(rows, next) && after == BatchRows(rows, assign, unassign, next)
    case Replace(website, catalogue, ids, featured) =>
      if AssignVideosError(website, catalogue, ids, featured).Some? then after == rows
          else Replaced(after, ids, featured)
    case Single(website, catalogue, id) =>
      var v := VideoId(Trim(id));
      if SingleError(website, catalogue, v).Some? then after == rows
      else exists next :: (v in rows || IsNextSortOrder(rows, next)) && after == AssignOne(rows, v, next)
    case Purge(v) => after == rows - {v}
  }

  lemma OperationKeepsSound(rows: Rows, op: Op, after: Rows)
    requires Sound(rows) && Does(rows, op, after)
    ensures Sound(after)
  {
    match op
    case Batch(website, catalogue, rawAssign, rawUnassign) =>
      var assign, unassign := NormalizeIds(rawAssign), NormalizeIds(rawUnassign);
      if BatchError(website, catalogue, assign, unassign).None? {
        var next :| IsNextSortOrder(rows, next) && after == BatchRows(rows, assign, unassign, next);
        NormalizedIdsAreDistinct(rawAssign);
        NormalizedIdsAreDistinct(rawUnassign);
        BatchUpdatesTheActiveSet(rows, assign, unassign, next);
      }
    case Replace(website, catalogue, ids, featured) =>
      if AssignVideosError(website, catalogue, ids, featured).None? { ReplacementIsSound(after, ids, featured); }
    case Single(website, catalogue, id) =>
      var v := VideoId(Trim(id));
      if SingleError(website, catalogue, v).None? {
        var next :| (v in rows || IsNextSortOrder(rows, next)) && after == AssignOne(rows, v, next);
        SingleAssignmentIsSound(rows, v, next);
      }
    case Purge(v) => PurgeIsSound(rows, v);
  }

  /** Across all operations, in any order: unique sort orders, at most one featured row, and that one ACTIVE. */
  lemma {:induction false} RowsStaySound(states: seq<Rows>, ops: seq<Op>, i: nat)
    requires |states| == |ops| + 1 && forall k :: 0 <= k < |ops| ==> Does(states[k], ops[k], states[k + 1])
    requires Sound(states[0]) && i < |states|
    ensures Sound(states[i])
  {
    if i > 0 {
      RowsStaySound(states, ops, i - 1);
      OperationKeepsSound(states[i - 1], ops[i - 1], states[i]);
    }
  }

  // ---------------------------------------------------------------- the service

  class WebsiteAssignmentService {
    var rows: Rows

    /** aggregate _max(sortOrder), plus one; the maximum of no rows is null. */
    method NextSortOrder() returns (next: int)
      ensures IsNextSortOrder(rows, next)
    {
      var max: Option<int>, rest := None, rows.Keys;
      while rest != {}
        invariant rest <= rows.Keys && (max.None? <==> rest == rows.Keys)
        invariant forall v :: v in rows && v !in rest ==> max.Some? && rows[v].sortOrder <= max.value
        invariant max.Some? ==> exists v :: v in rows && rows[v].sortOrder == max.value
        decreases |rest|
      {
        var v :| v in rest;
        if max.None? || rows[v].sortOrder > max.value { max := Some(rows[v].sortOrder); }
        rest := rest - {v};
      }
      next := if max.None? then 0 else max.value + 1;
    }

    /** The assign loop, over the rows as `read` before it. */
    method AssignLoop(assign: seq<VideoId>, next: int) returns (added: seq<VideoId>, same: seq<VideoId>)
      modifies this
      ensures rows == AssignAll(old(rows), assign, next).0
      ensures added == Reject(assign, Active(old(rows))) && same == Select(assign, Active(old(rows)))
    {
      var read, nextSortOrder := rows, next;
      added, same := [], [];
      for i := 0 to |assign|
        invariant (rows, nextSortOrder) == AssignAll(read, assign[..i], next)
        invariant added == Reject(assign[..i], Active(read)) && same == Select(assign[..i], Active(read))
      {
        assert assign[..i + 1][..i] == assign[..i];
        var v := assign[i];
        if v in read && read[v].active {
          same := same + [v];
        } else {
          rows := rows[v := if v in rows then rows[v].(active := true) else Row(nextSortOrder, false, true)];
          if v !in read { nextSortOrder := nextSortOrder + 1; }
          added := added + [v];
        }
      }
      assert assign[..|assign|] == assign;
    }

    method UnassignLoop(read: Rows, unassign: seq<VideoId>) returns (removed: seq<VideoId>, same: seq<VideoId>)
      requires forall v :: v in read ==> v in rows
      modifies this
      ensures rows == UnassignAll(read, old(rows), unassign)
      ensures removed == Select(unassign, Active(read)) && same == Reject(unassign, Active(read))
    {
      ghost var start := rows;
      removed, same := [], [];
      for i := 0 to |unassign|
        invariant rows == UnassignAll(read, start, unassign[..i]) && rows.Keys == start.Keys
        invariant removed == Select(unassign[..i], Active(read)) && same == Reject(unassign[..i], Active(read))
      {
        assert unassign[..i + 1][..i] == unassign[..i];
        var v := unassign[i];
        if v in read && read[v].active {
          rows := rows[v := rows[v].(active := false, isFeatured := false)];
          removed := removed + [v];
        } else {
          same := same + [v];
        }
      }
      assert unassign[..|unassign|] == unassign;
    }

    method UpdateVideoAssignments(website: Website, catalogue: Catalogue, rawAssign: seq<string>,
                                  rawUnassign: seq<string>)
      returns (result: BatchResult)
      modifies this
      ensures var assign, unassign := NormalizeIds(rawAssign), NormalizeIds(rawUnassign);
              var error := BatchError(website, catalogue, assign, unassign);
              && (error.Some? ==> rows == old(rows) && result == Refused(error.value))
              && (error.None? ==>
                    && (exists next :: IsNextSortOrder(old(rows), next)
                          && rows == BatchRows(old(rows), assign, unassign, next))
                    && result.Updated? && Partitions(old(rows), assign, unassign, result)
                    && result.activeTotal == |Active(rows)|)
      ensures Does(old(rows), Batch(website, catalogue, rawAssign, rawUnassign), rows)
      ensures result.Updated? <==>
                && website == Found(true) && (forall v :: !Mentions(rawAssign, v) || !Mentions(rawUnassign, v))
                && |NormalizeIds(rawAssign)| + |NormalizeIds(rawUnassign)| <= 100
                && (forall v :: Mentions(rawAssign, v) ==> v in catalogue && catalogue[v].playable)
                && (forall v :: Mentions(rawUnassign, v) ==> v in catalogue)
    {
      BatchIsAcceptedIff(website, catalogue, rawAssign, rawUnassign);
      var assign, unassign := NormalizeIds(rawAssign), NormalizeIds(rawUnassign);
      var error := BatchError(website, catalogue, assign, unassign);
      if error.Some? { return Refused(error.value); }
      NormalizedIdsAreDistinct(rawAssign);
      var read := rows;
      var next := NextSortOrder();
      AssignAllIs(read, assign, next);
      var added, kept := AssignLoop(assign, next);
      var removed, same := UnassignLoop(read, unassign);
      assert rows == BatchRows(read, assign, unassign, next);
      result := Updated(added, removed, kept + same, |set v | v in rows && rows[v].active|);
      ListsPartition(read, assign, unassign, result.activeTotal);
    }

    method AssignVideos(website: Website, catalogue: Catalogue, ids: seq<VideoId>, featured: Option<VideoId>)
      returns (error: Option<Error>)
      modifies this
      ensures error == AssignVideosError(website, catalogue, ids, featured)
      ensures error.Some? ==> rows == old(rows)
      ensures error.None? ==> Replaced(rows, ids, featured)
      ensures error.None? <==>
                && website == Found(true) && Distinct(ids) && (featured.Some? ==> featured.value in ids)
                && forall v :: v in ids ==> v in catalogue && catalogue[v].ready
    {
      error := AssignVideosError(website, catalogue, ids, featured);
      if error.Some? { return; }
      rows := map[];
      for i := 0 to |ids|
        invariant forall v :: v in rows <==> v in ids[..i]
        invariant forall j :: 0 <= j < i ==> rows[ids[j]] == Row(j, featured == Some(ids[j]), true)
      {
        rows := rows[ids[i] := Row(i, featured == Some(ids[i]), true)];
        assert ids[..i + 1] == ids[..i] + [ids[i]];
      }
      assert ids[..|ids|] == ids;
    }

    method AssignSingleVideo(website: Website, catalogue: Catalogue, id: string) returns (error: Option<Error>)
      modifies this
      ensures error == SingleError(website, catalogue, VideoId(Trim(id)))
      ensures Does(old(rows), Single(website, catalogue, id), rows)
      ensures var v := VideoId(Trim(id));
              && (error.None? <==>
                    website == Found(true) && v.text != "" && v in catalogue && catalogue[v].playable)
              && (error.Some? ==> rows == old(rows))
              && (error.None? ==>
                    && v in rows && rows == old(rows)[v := rows[v]]
                    && (v in old(rows) ==> rows[v] == old(rows)[v].(active := true))
                    && (v !in old(rows) ==>
                          && IsNextSortOrder(old(rows), rows[v].sortOrder)
                          && rows[v] == Row(rows[v].sortOrder, false, true)))
    {
      var v := VideoId(Trim(id));
      error := SingleError(website, catalogue, v);
      if error.Some? { return; }
      if v in rows {
        ghost var next := 0;
        assert rows[v := rows[v].(active := true)] == AssignOne(rows, v, next);
        rows := rows[v := rows[v].(active := true)];
      } else {
        var next := NextSortOrder();
        assert rows[v := Row(next, false, true)] == AssignOne(rows, v, next);
        rows := rows[v := Row(next, false, true)];
      }
    }
  }
}
