/**
 Which historical share link becomes a pair's permanent identity, and when that link cannot be pinned.
 The request path and the read-only audit both decide with these functions.
 */
module CanonicalPolicy {
  import opened Wrappers
  import opened JsText
  import opened ShareLinks

  type Id = nat
  type Time = int

  datatype Pair = Pair(websiteId: Id, videoId: Id)

  datatype Candidate = Candidate(
    id: Id,
    alias: Option<string>,
    status: LinkStatus,
    expiresAt: Option<Time>,
    maxViews: Option<nat>,
    createdAt: Time,
    anchoredPair: Option<Pair>)

  datatype PinBlocker = ALIAS_MISSING | HAS_EXPIRY | HAS_MAX_VIEWS | ANCHORED_TO_OTHER_PAIR

  datatype Selection = Selection(winner: Option<Candidate>, historicalCandidateCount: nat,
                                 pinBlocker: Option<PinBlocker>)

  predicate NoUsableAlias(alias: Option<string>) {
    alias.None? || Trim(alias.value) == ""
  }

  /** Negative when `a` comes first: newest first, then the greater id. */
  function CompareCandidates(a: Candidate, b: Candidate): int {
    if b.createdAt != a.createdAt then b.createdAt - a.createdAt
    else if a.id < b.id then 1 else if a.id > b.id then -1 else 0
  }

  /** A stable sort by `CompareCandidates`. */
  function Insert(c: Candidate, sorted: seq<Candidate>): seq<Candidate> {
    if sorted == [] || CompareCandidates(c, sorted[0]) <= 0 then [c] + sorted
    else [sorted[0]] + Insert(c, sorted[1..])
  }

  function Ordered(candidates: seq<Candidate>): seq<Candidate> {
    if candidates == [] then [] else Insert(candidates[0], Ordered(candidates[1..]))
  }

  function AssessPinnability(winner: Candidate, pair: Pair): Option<PinBlocker> {
    if NoUsableAlias(winner.alias) then Some(ALIAS_MISSING)
    else if winner.expiresAt.Some? then Some(HAS_EXPIRY)
    else if winner.maxViews.Some? then Some(HAS_MAX_VIEWS)
    else if winner.anchoredPair.Some? && winner.anchoredPair.value != pair then Some(ANCHORED_TO_OTHER_PAIR)
    else None
  }

  function SelectWinner(candidates: seq<Candidate>, pair: Pair): Selection {
    var ordered := Ordered(candidates);
    if ordered == [] then Selection(None, 0, None)
    else Selection(Some(ordered[0]), |candidates|, AssessPinnability(ordered[0], pair))
  }

  predicate Denying(status: LinkStatus) { status != ACTIVE }

  // ---------------------------------------------------------------- the winner

  predicate Sorted(s: seq<Candidate>) {
    forall i, j :: 0 <= i < j < |s| ==> CompareCandidates(s[i], s[j]) <= 0
  }

  lemma {:induction false} InsertPermutes(c: Candidate, s: seq<Candidate>)
    ensures multiset(Insert(c, s)) == multiset(s) + multiset{c}
  {
    if s == [] || CompareCandidates(c, s[0]) <= 0 {
    } else {
      InsertPermutes(c, s[1..]);
      assert s == [s[0]] + s[1..];
    }
  }

  /** Putting a candidate that comes before all others in front keeps a sequence sorted. */
  lemma ConsSorted(c: Candidate, s: seq<Candidate>)
    requires Sorted(s) && forall d :: d in s ==> CompareCandidates(c, d) <= 0
    ensures Sorted([c] + s)
  {
  }

  lemma ComparisonIsTransitive(a: Candidate, b: Candidate, c: Candidate)
    requires CompareCandidates(a, b) <= 0 && CompareCandidates(b, c) <= 0
    ensures CompareCandidates(a, c) <= 0
  {
  }

  lemma {:induction false} InsertSorts(c: Candidate, s: seq<Candidate>)
    requires Sorted(s)
    ensures Sorted(Insert(c, s))
  {
    if s == [] {
    } else if CompareCandidates(c, s[0]) <= 0 {
      forall d | d in s
        ensures CompareCandidates(c, d) <= 0
      {
        var i :| 0 <= i < |s| && s[i] == d;
        if i > 0 { ComparisonIsTransitive(c, s[0], s[i]); }
      }
      ConsSorted(c, s);
    } else {
      var rest := Insert(c, s[1..]);
      InsertSorts(c, s[1..]);
      InsertPermutes(c, s[1..]);
      forall d | d in rest
        ensures CompareCandidates(s[0], d) <= 0
      {
        assert d in multiset(rest);
      }
      ConsSorted(s[0], rest);
    }
  }

  lemma {:induction false} OrderedIsASort(candidates: seq<Candidate>)
    ensures Sorted(Ordered(candidates)) && multiset(Ordered(candidates)) == multiset(candidates)
    ensures |Ordered(candidates)| == |candidates|
  {
    if candidates != [] {
      OrderedIsASort(candidates[1..]);
      InsertSorts(candidates[0], Ordered(candidates[1..]));
      InsertPermutes(candidates[0], Ordered(candidates[1..]));
      assert candidates == [candidates[0]] + candidates[1..];
    }
    assert |multiset(Ordered(candidates))| == |multiset(candidates)|;
  }

  /** `w` was created later than every other candidate, or in the same millisecond with a greater id. */
  ghost predicate IsNewest(w: Candidate, candidates: seq<Candidate>) {
    && w in candidates
    && forall c :: c in candidates ==> c.createdAt < w.createdAt || (c.createdAt == w.createdAt && c.id <= w.id)
  }

  /** There is a winner exactly when there is history, and it is the newest candidate. */
  lemma WinnerIsNewest(candidates: seq<Candidate>, pair: Pair)
    ensures var s := SelectWinner(candidates, pair);
            && (s.winner.None? <==> candidates == [])
            && (s.winner.Some? ==> IsNewest(s.winner.value, candidates))
            && s.historicalCandidateCount == |candidates|
            && (s.pinBlocker.Some? ==> s.winner.Some?)
  {
    OrderedIsASort(candidates);
    var ordered := Ordered(candidates);
    if candidates != [] {
      assert ordered[0] in multiset(candidates);
      forall c | c in candidates
        ensures CompareCandidates(ordered[0], c) <= 0
      {
        assert c in multiset(ordered);
      }
    }
  }

  ghost predicate DistinctIds(candidates: seq<Candidate>) {
    forall a, b :: a in candidates && b in candidates && a.id == b.id ==> a == b
  }

  /** The row order the database happened to return decides nothing. */
  lemma WinnerIgnoresRowOrder(candidates: seq<Candidate>, shuffled: seq<Candidate>, pair: Pair)
    requires multiset(candidates) == multiset(shuffled) && DistinctIds(candidates)
    ensures SelectWinner(candidates, pair) == SelectWinner(shuffled, pair)
  {
    WinnerIsNewest(candidates, pair);
    WinnerIsNewest(shuffled, pair);
    assert |multiset(candidates)| == |multiset(shuffled)|;
    assert forall c :: c in candidates <==> c in multiset(candidates);
    assert forall c :: c in shuffled <==> c in multiset(shuffled);
  }

  /** The same candidates, with other statuses. */
  ghost predicate SameButStatus(candidates: seq<Candidate>, others: seq<Candidate>) {
    && |candidates| == |others|
    && forall i :: 0 <= i < |candidates| ==> others[i] == candidates[i].(status := others[i].status)
  }

  /** Revoking, disabling or restoring links never changes which one wins, nor whether it can be pinned. */
  lemma WinnerIgnoresStatus(candidates: seq<Candidate>, others: seq<Candidate>, pair: Pair)
    requires SameButStatus(candidates, others) && DistinctIds(candidates)
    ensures var s, t := SelectWinner(candidates, pair), SelectWinner(others, pair);
            && (s.winner.Some? <==> t.winner.Some?)
            && (s.winner.Some? ==> t.winner.value == s.winner.value.(status := t.winner.value.status))
            && s.pinBlocker == t.pinBlocker
  {
    WinnerIsNewest(candidates, pair);
    WinnerIsNewest(others, pair);
    if candidates != [] {
      var w, v := SelectWinner(candidates, pair).winner.value, SelectWinner(others, pair).winner.value;
      var i :| 0 <= i < |candidates| && candidates[i] == w;
      var j :| 0 <= j < |others| && others[j] == v;
      assert others[i] in others && candidates[j] in candidates;
      assert candidates[j].id == w.id;
    }
  }

  // ---------------------------------------------------------------- what blocks a pin

  /** The first of four reasons, in this order; an anchor of the pair itself is none. */
  lemma BlockerIff(winner: Candidate, pair: Pair)
    ensures var blocker := AssessPinnability(winner, pair);
            var usable := winner.alias.Some? && !AllWhitespace(winner.alias.value);
            && (blocker == Some(ALIAS_MISSING) <==> !usable)
            && (blocker == Some(HAS_EXPIRY) <==> usable && winner.expiresAt != None)
            && (blocker == Some(HAS_MAX_VIEWS) <==> usable && winner.expiresAt == None && winner.maxViews != None)
            && (blocker == Some(ANCHORED_TO_OTHER_PAIR) <==>
                  && usable && winner.expiresAt == None && winner.maxViews == None
                  && winner.anchoredPair !in {None, Some(pair)})
  {
    if winner.alias.Some? { BlankIff(winner.alias.value); }
  }
}
