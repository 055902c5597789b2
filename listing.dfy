/** How the routes read lists out of the store: a filter (a set of ids), sorted
    newest first by creation time (`.sort({ createdAt: -1 })`), optionally cut
    to a maximum length (`.limit(n)`). Ids are handed out in creation order, so
    newest first is descending id order. */
module Listing {

  /** The members of `ids` below `bound`, largest first. */
  function Descending(ids: set<nat>, bound: nat): (r: seq<nat>)
    ensures forall i :: 0 <= i < |r| ==> r[i] in ids && r[i] < bound
    ensures forall i, j :: 0 <= i < j < |r| ==> r[i] > r[j]
    ensures forall k :: k in ids && k < bound ==> k in r
    decreases bound
  {
    if bound == 0 then []
    else (if bound - 1 in ids then [bound - 1] else []) + Descending(ids, bound - 1)
  }

  /** Only the members below the bound matter. */
  lemma {:induction false} DescendingAgrees(ids: set<nat>, ids': set<nat>, bound: nat)
    requires forall k :: k < bound ==> (k in ids <==> k in ids')
    ensures Descending(ids, bound) == Descending(ids', bound)
    decreases bound
  {
    if bound > 0 {
      DescendingAgrees(ids, ids', bound - 1);
    }
  }

  /** A new id at the bound, if selected, goes first; the rest keep their order. */
  lemma DescendingGrow(ids: set<nat>, ids': set<nat>, bound: nat, bound': nat)
    requires bound' == bound + 1
    requires forall k :: k < bound ==> (k in ids <==> k in ids')
    ensures Descending(ids', bound')
         == (if bound in ids' then [bound] else []) + Descending(ids, bound)
  {
    DescendingAgrees(ids, ids', bound);
  }

  /** The records stored under `ids`, in that order. */
  function Lookup<T>(m: map<nat, T>, ids: seq<nat>): (r: seq<T>)
    requires forall i :: 0 <= i < |ids| ==> ids[i] in m
    ensures |r| == |ids|
    ensures forall i :: 0 <= i < |r| ==> r[i] == m[ids[i]]
  {
    seq(|ids|, i requires 0 <= i < |ids| => m[ids[i]])
  }

  /** Every record whose id is listed appears in the lookup. */
  lemma LookupHas<T>(m: map<nat, T>, ids: seq<nat>, k: nat)
    requires forall i :: 0 <= i < |ids| ==> ids[i] in m
    requires k in ids
    ensures k in m && m[k] in Lookup(m, ids)
  {
    var i :| 0 <= i < |ids| && ids[i] == k;
    assert Lookup(m, ids)[i] == m[k];
  }

  /** Looking up a new head id in an extended map puts its record first. */
  lemma LookupExtend<T>(m: map<nat, T>, k: nat, v: T, ids: seq<nat>)
    requires forall i :: 0 <= i < |ids| ==> ids[i] in m && ids[i] != k
    ensures Lookup(m[k := v], [k] + ids) == [v] + Lookup(m, ids)
  {
  }

  /** `.limit(n)`: the first `n` elements, or all of them if there are fewer. */
  function Take<T>(s: seq<T>, n: nat): (r: seq<T>)
    ensures |r| <= n && |r| <= |s|
    ensures |r| == n || r == s
    ensures r == s[..|r|]
  {
    if |s| <= n then s else s[..n]
  }
}
