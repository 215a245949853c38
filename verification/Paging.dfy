/** Keyset paging: what a store answers when asked for the first keys after a cursor, in order. */
module Paging {
  ghost predicate Ascending(page: seq<int>) {
    forall i, j :: 0 <= i < j < |page| ==> page[i] < page[j]
  }

  lemma LeastExists(keys: set<int>)
    requires keys != {}
    ensures exists m :: m in keys && forall k :: k in keys ==> m <= k
  {
    assert (forall x :: x !in keys) ==> keys == {};
    var x :| x in keys;
    var rest := keys - {x};
    if rest == {} {
      assert forall k :: k in keys ==> k == x || k in rest;
    } else {
      LeastExists(rest);
      var m :| m in rest && forall k :: k in rest ==> m <= k;
      var least := if x < m then x else m;
      assert forall k :: k in keys ==> k == x || k in rest;
      assert least in keys && forall k :: k in keys ==> least <= k;
    }
  }

  function Least(keys: set<int>): (m: int)
    requires keys != {}
    ensures m in keys && forall k :: k in keys ==> m <= k
  {
    LeastExists(keys);
    var m :| m in keys && forall k :: k in keys ==> m <= k;
    m
  }

  /** At most limit of the keys after the cursor, the least first. */
  function Page(keys: set<int>, after: int, limit: nat): seq<int>
    decreases limit
  {
    var later := set k | k in keys && after < k;
    if limit == 0 || later == {} then []
    else
      var m := Least(later);
      [m] + Page(keys, m, limit - 1)
  }

  lemma {:induction false} PageIsWithin(keys: set<int>, after: int, limit: nat)
    ensures |Page(keys, after, limit)| <= limit
    ensures forall i :: 0 <= i < |Page(keys, after, limit)| ==>
        Page(keys, after, limit)[i] in keys && after < Page(keys, after, limit)[i]
    decreases limit
  {
    var later := set k | k in keys && after < k;
    if limit > 0 && later != {} {
      PageIsWithin(keys, Least(later), limit - 1);
    }
  }

  lemma {:induction false} PageAscends(keys: set<int>, after: int, limit: nat)
    ensures Ascending(Page(keys, after, limit))
    decreases limit
  {
    var later := set k | k in keys && after < k;
    if limit > 0 && later != {} {
      var m := Least(later);
      PageAscends(keys, m, limit - 1);
      PageIsWithin(keys, m, limit - 1);
      assert Page(keys, after, limit) == [m] + Page(keys, m, limit - 1);
    }
  }

  lemma {:induction false} PageIsComplete(keys: set<int>, after: int, limit: nat, k: int)
    requires k in keys && after < k && k !in Page(keys, after, limit)
    ensures |Page(keys, after, limit)| == limit && forall q :: q in Page(keys, after, limit) ==> q < k
    decreases limit
  {
    var later := set k | k in keys && after < k;
    assert k in later;
    if limit > 0 {
      var m := Least(later);
      assert Page(keys, after, limit) == [m] + Page(keys, m, limit - 1);
      PageIsComplete(keys, m, limit - 1, k);
    }
  }

  /** A page is in ascending order and none is passed over: a key after the cursor is left out only
      when the page is full of smaller ones. */
  lemma PageIsNextKeys(keys: set<int>, after: int, limit: nat)
    ensures |Page(keys, after, limit)| <= limit && Ascending(Page(keys, after, limit))
    ensures forall i :: 0 <= i < |Page(keys, after, limit)| ==>
        Page(keys, after, limit)[i] in keys && after < Page(keys, after, limit)[i]
    ensures forall k :: k in keys && after < k && k !in Page(keys, after, limit)
              ==> |Page(keys, after, limit)| == limit && forall q :: q in Page(keys, after, limit) ==> q < k
  {
    PageIsWithin(keys, after, limit);
    PageAscends(keys, after, limit);
    forall k | k in keys && after < k && k !in Page(keys, after, limit)
      ensures |Page(keys, after, limit)| == limit && forall q :: q in Page(keys, after, limit) ==> q < k
    {
      PageIsComplete(keys, after, limit, k);
    }
  }
}
