/**
 * Picking list items by position, as the notice-coalition home page does
 * twice: `indices.map(i => items[i]).filter(Boolean)` for the feed
 * (notice-home/js/data-fetcher.js) and
 * `data.filter((_, index) => indices.includes(index))` for the resources
 * (notice-home/js/ui-handler.js). Both keep the same items.
 */
module Selection {
  import opened Wrappers

  /** The positions both lists keep. */
  const HomeIndices: seq<nat> := [0, 1, 2, 4, 6, 8]

  predicate Increasing(idx: seq<nat>) {
    forall a, b :: 0 <= a < b < |idx| ==> idx[a] < idx[b]
  }

  /** Reference: the items at the listed positions that exist, in list order. */
  function PickExisting<T>(items: seq<T>, idx: seq<nat>): (r: seq<T>)
    ensures |r| <= |idx|
  {
    if idx == [] then []
    else
      var last := idx[|idx| - 1];
      PickExisting(items, idx[..|idx| - 1]) + (if last < |items| then [items[last]] else [])
  }

  /** `idx.map(i => items[i])`: a position past the end reads `undefined`, here `None`. */
  function MapIndices<T>(items: seq<T>, idx: seq<nat>): (r: seq<Option<T>>)
    ensures |r| == |idx|
  {
    if idx == [] then []
    else
      var last := idx[|idx| - 1];
      MapIndices(items, idx[..|idx| - 1]) + [if last < |items| then Some(items[last]) else None]
  }

  /** `.filter(Boolean)` on entries that are either an object or absent. */
  function Present<T>(xs: seq<Option<T>>): (r: seq<T>)
    ensures |r| <= |xs|
  {
    if xs == [] then []
    else
      var init := xs[..|xs| - 1];
      Present(init) + (if xs[|xs| - 1].Some? then [xs[|xs| - 1].value] else [])
  }

  /** `items.filter((_, i) => idx.includes(i))` */
  function FilterByIndex<T>(items: seq<T>, idx: seq<nat>): (r: seq<T>)
    ensures |r| <= |items|
  {
    if items == [] then []
    else
      var n := |items| - 1;
      FilterByIndex(items[..n], idx) + (if n in idx then [items[n]] else [])
  }

  /** Mapping positions and dropping the missing ones picks the existing items. */
  lemma {:induction false} MapThenPresent<T>(items: seq<T>, idx: seq<nat>)
    ensures Present(MapIndices(items, idx)) == PickExisting(items, idx)
  {
    if idx != [] {
      var m := MapIndices(items, idx);
      MapThenPresent(items, idx[..|idx| - 1]);
      assert m[..|m| - 1] == MapIndices(items, idx[..|idx| - 1]);
    }
  }

  lemma {:induction false} PickNothing<T>(items: seq<T>, idx: seq<nat>)
    requires items == []
    ensures PickExisting(items, idx) == []
  {
    if idx != [] {
      PickNothing(items, idx[..|idx| - 1]);
    }
  }

  lemma {:induction false} FilterNothing<T>(items: seq<T>)
    ensures FilterByIndex(items, []) == []
  {
    if items != [] {
      FilterNothing(items[..|items| - 1]);
    }
  }

  /** Picking only positions below `k` reads nothing past `k`. */
  lemma {:induction false} PickPrefix<T>(items: seq<T>, idx: seq<nat>, k: nat)
    requires k <= |items|
    requires forall j :: 0 <= j < |idx| ==> idx[j] < k
    ensures PickExisting(items[..k], idx) == PickExisting(items, idx)
  {
    if idx != [] {
      PickPrefix(items, idx[..|idx| - 1], k);
    }
  }

  /** The filter looks only at which existing positions are listed. */
  lemma {:induction false} FilterSameMembers<T>(items: seq<T>, idx: seq<nat>, idx2: seq<nat>)
    requires forall p :: 0 <= p < |items| ==> (p in idx <==> p in idx2)
    ensures FilterByIndex(items, idx) == FilterByIndex(items, idx2)
  {
    if items != [] {
      FilterSameMembers(items[..|items| - 1], idx, idx2);
    }
  }

  /** The last of increasing positions is above all the others. */
  lemma LastIsLargest(idx: seq<nat>)
    requires Increasing(idx) && idx != []
    ensures idx == idx[..|idx| - 1] + [idx[|idx| - 1]]
    ensures Increasing(idx[..|idx| - 1])
    ensures forall j :: 0 <= j < |idx| - 1 ==> idx[j] < idx[|idx| - 1]
  {
  }

  /**
   * For increasing positions the index filter keeps exactly the items the
   * position map keeps, in the same order.
   */
  lemma {:induction false} FilterByIndexPicks<T>(items: seq<T>, idx: seq<nat>)
    requires Increasing(idx)
    ensures FilterByIndex(items, idx) == PickExisting(items, idx)
    decreases |items| + |idx|
  {
    if items == [] {
      PickNothing(items, idx);
    } else if idx == [] {
      FilterNothing(items);
    } else {
      var n := |items|;
      var last := idx[|idx| - 1];
      var init := idx[..|idx| - 1];
      LastIsLargest(idx);
      if last >= n {
        FilterSameMembers(items, idx, init);
        FilterByIndexPicks(items, init);
      } else if last == n - 1 {
        FilterSameMembers(items[..n - 1], idx, init);
        FilterByIndexPicks(items[..n - 1], init);
        PickPrefix(items, init, n - 1);
        assert n - 1 in idx;
      } else {
        assert forall j :: 0 <= j < |idx| ==> idx[j] < n - 1;
        FilterByIndexPicks(items[..n - 1], idx);
        PickPrefix(items, idx, n - 1);
      }
    }
  }

  /** One more position: its item joins the end when it exists. */
  lemma PickSnoc<T>(items: seq<T>, idx: seq<nat>, x: nat)
    ensures PickExisting(items, idx + [x]) == PickExisting(items, idx) + (if x < |items| then [items[x]] else [])
  {
    assert (idx + [x])[..|idx|] == idx;
  }

  /** The home page's positions, read off a list long enough to hold them all. */
  lemma HomePick<T>(items: seq<T>)
    requires |items| >= 9
    ensures PickExisting(items, HomeIndices) == [items[0], items[1], items[2], items[4], items[6], items[8]]
  {
    var p0: seq<nat> := [];
    var p1 := p0 + [0];
    PickSnoc(items, p0, 0);
    var p2 := p1 + [1];
    PickSnoc(items, p1, 1);
    var p3 := p2 + [2];
    PickSnoc(items, p2, 2);
    var p4 := p3 + [4];
    PickSnoc(items, p3, 4);
    var p5 := p4 + [6];
    PickSnoc(items, p4, 6);
    var p6 := p5 + [8];
    PickSnoc(items, p5, 8);
    assert p6 == HomeIndices;
  }

  lemma HomeIndicesIncreasing()
    ensures Increasing(HomeIndices)
  {
  }
}
