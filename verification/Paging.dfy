/** Paging through a table in the order of its primary key: `id > cursor ORDER BY id LIMIT take`. */
module Paging {
  import opened Wrappers

  type Id = nat

  ghost predicate Ascending(ids: seq<Id>) {
    forall i, j :: 0 <= i < j < |ids| ==> ids[i] < ids[j]
  }

  lemma TailOfAscending(a: seq<Id>, k: Id)
    requires Ascending(a) && a != []
    ensures k in a[1..] <==> k in a && k != a[0]
  {
    if k in a && k != a[0] {
      var i :| 0 <= i < |a| && a[i] == k;
      assert a[1..][i - 1] == k;
    }
  }

  lemma {:induction false} AscendingIsUnique(a: seq<Id>, b: seq<Id>)
    requires Ascending(a) && Ascending(b) && forall k :: k in a <==> k in b
    ensures a == b
  {
    assert a == [] <==> b == [] by {
      if a != [] { assert a[0] in b; }
      if b != [] { assert b[0] in a; }
    }
    if a != [] {
      assert a[0] in a && b[0] in b;
      assert a[0] == b[0];
      forall k: Id
        ensures k in a[1..] <==> k in b[1..]
      {
        TailOfAscending(a, k);
        TailOfAscending(b, k);
      }
      AscendingIsUnique(a[1..], b[1..]);
      assert a == [a[0]] + a[1..] && b == [b[0]] + b[1..];
    }
  }

  lemma AppendAscending(a: seq<Id>, b: seq<Id>)
    requires Ascending(a) && Ascending(b) && forall k, l :: k in a && l in b ==> k < l
    ensures Ascending(a + b)
  {
    assert forall i :: 0 <= i < |a| ==> a[i] in a;
    assert forall i :: 0 <= i < |b| ==> b[i] in b;
  }

  /** In an ascending sequence, the ids after position p are those greater than the one before it. */
  lemma AfterCursor(all: seq<Id>, p: nat, k: Id)
    requires Ascending(all) && p <= |all|
    ensures k in all[p..] <==> k in all && (p == 0 || k > all[p - 1])
    ensures k in all[..p] <==> k in all && !(p == 0 || k > all[p - 1])
  {
    if k in all {
      var i :| 0 <= i < |all| && all[i] == k;
      if i < p { assert all[..p][i] == k; } else { assert all[p..][i - p] == k; }
    }
  }

  lemma SplitAscending(all: seq<Id>, p: nat)
    requires Ascending(all) && p <= |all|
    ensures Ascending(all[..p]) && Ascending(all[p..])
    ensures forall k, l :: k in all[..p] && l in all[p..] ==> k < l
    ensures forall l :: l in all <==> l in all[..p] || l in all[p..]
  {
    forall l: Id
      ensures l in all <==> l in all[..p] || l in all[p..]
      ensures l in all[..p] ==> p > 0 && l <= all[p - 1]
      ensures l in all[p..] ==> p == 0 || l > all[p - 1]
    {
      AfterCursor(all, p, l);
    }
  }

  lemma NotYetVisited(all: seq<Id>, k: nat)
    requires Ascending(all) && k < |all|
    ensures all[k] !in all[..k]
  {
  }

  function Take(ids: seq<Id>, n: nat): seq<Id> {
    if |ids| <= n then ids else ids[..n]
  }

  /** Where the cursor stands after these ids. */
  function LastOf(ids: seq<Id>): Option<Id> {
    if ids == [] then None else Some(ids[|ids| - 1])
  }

  /** Repeated addition, one batch after the other. */
  function Times(size: nat, batches: nat): nat {
    if batches == 0 then 0 else Times(size, batches - 1) + size
  }

  lemma {:induction false} TimesIsProduct(size: nat, batches: nat)
    ensures Times(size, batches) == size * batches
  {
    if batches > 0 { TimesIsProduct(size, batches - 1); }
  }

  lemma {:induction false} BatchesAddUp(size: nat, batch: nat, maxBatches: nat)
    requires batch < maxBatches
    ensures Times(size, batch + 1) == Times(size, batch) + size <= Times(size, maxBatches)
    ensures size == 0 ==> Times(size, maxBatches) == 0
  {
    if batch + 1 < maxBatches { BatchesAddUp(size, batch, maxBatches - 1); }
    if size == 0 { TimesIsProduct(size, maxBatches); }
  }

  /** One more batch takes one more page; once a page is empty, no further batch takes anything. */
  lemma BatchTakes(all: seq<Id>, size: nat, batch: nat, maxBatches: nat)
    requires batch < maxBatches
    ensures var taken := Take(all, Times(size, batch));
            var page := Take(all[|taken|..], size);
            && taken == all[..|taken|]
            && taken + page == Take(all, Times(size, batch + 1))
            && (page == [] ==> taken == Take(all, Times(size, maxBatches)))
  {
    BatchesAddUp(size, batch, maxBatches);
    var reach := Times(size, batch);
    if |all| > reach {
      if |all| - reach > size { assert all[..reach] + all[reach..][..size] == all[..reach + size]; }
      else { assert all[..reach] + all[reach..] == all; }
    }
  }
}
