/** What `ORDER BY ... LIMIT n` returns over rows whose sort keys end in the row id. */
module Selection {
  import opened Jobs

  datatype SortKey = SortKey(first: int, second: int, third: int, id: JobId)

  predicate Before(x: SortKey, y: SortKey) {
    || x.first < y.first
    || (x.first == y.first && x.second < y.second)
    || (x.first == y.first && x.second == y.second && x.third < y.third)
    || (x.first == y.first && x.second == y.second && x.third == y.third && x.id < y.id)
  }

  /** Every row is sorted under its own id. */
  ghost predicate Keyed(keys: map<JobId, SortKey>) {
    forall id :: id in keys ==> keys[id].id == id
  }

  predicate IsLeast(keys: map<JobId, SortKey>, id: JobId) {
    id in keys && forall other :: other in keys && other != id ==> Before(keys[id], keys[other])
  }

  lemma {:induction false} LeastExists(keys: map<JobId, SortKey>)
    requires Keyed(keys) && keys.Keys != {}
    ensures exists id :: id in keys && IsLeast(keys, id)
    decreases |keys|
  {
    var x :| x in keys;
    var rest := keys - {x};
    assert rest.Keys == keys.Keys - {x};
    if rest.Keys == {} {
      assert keys.Keys == rest.Keys + {x};
      assert IsLeast(keys, x);
    } else {
      assert |rest| < |keys|;
      LeastExists(rest);
      var y :| y in rest && IsLeast(rest, y);
      assert forall other :: other in keys && other != x ==> other in rest && keys[other] == rest[other];
      if Before(keys[x], keys[y]) {
        assert IsLeast(keys, x);
      } else {
        assert IsLeast(keys, y);
      }
    }
  }

  /** The first `n` ids in key order. */
  function Take(keys: map<JobId, SortKey>, n: nat): seq<JobId>
    requires Keyed(keys)
    decreases n
  {
    if n == 0 || keys.Keys == {} then []
    else
      LeastExists(keys);
      var id :| id in keys && IsLeast(keys, id);
      [id] + Take(keys - {id}, n - 1)
  }

  /** `ids` is the selection: sorted, as long as the limit and the candidates allow, nothing smaller left behind. */
  ghost predicate IsSelection(keys: map<JobId, SortKey>, n: nat, ids: seq<JobId>) {
    && |ids| == (if n <= |keys| then n else |keys|)
    && (forall i :: 0 <= i < |ids| ==> ids[i] in keys)
    && (forall i, k :: 0 <= i < k < |ids| ==> Before(keys[ids[i]], keys[ids[k]]))
    && (forall i, other :: 0 <= i < |ids| && other in keys && other !in ids ==> Before(keys[ids[i]], keys[other]))
  }

  lemma {:induction false} TakeIsSelection(keys: map<JobId, SortKey>, n: nat)
    requires Keyed(keys)
    ensures IsSelection(keys, n, Take(keys, n))
    decreases n
  {
    if n != 0 && keys.Keys != {} {
      LeastExists(keys);
      var id :| id in keys && IsLeast(keys, id) && Take(keys, n) == [id] + Take(keys - {id}, n - 1);
      assert (keys - {id}).Keys == keys.Keys - {id};
      TakeIsSelection(keys - {id}, n - 1);
      PutFirst(keys, n, id, Take(keys - {id}, n - 1));
    }
  }

  lemma PutFirst(keys: map<JobId, SortKey>, n: nat, id: JobId, ids: seq<JobId>)
    requires Keyed(keys) && id in keys && IsLeast(keys, id) && n >= 1
    requires IsSelection(keys - {id}, n - 1, ids)
    ensures IsSelection(keys, n, [id] + ids)
  {
    var rest := keys - {id};
    assert rest.Keys == keys.Keys - {id};
    assert |rest| == |keys| - 1;
    var all := [id] + ids;
    assert forall i :: 0 < i < |all| ==> all[i] == ids[i - 1] && all[i] in rest && all[i] != id;
    assert forall x :: x in ids ==> x in all;
    forall i, k | 0 <= i < k < |all|
      ensures Before(keys[all[i]], keys[all[k]])
    {
      if i > 0 {
        assert Before(rest[ids[i - 1]], rest[ids[k - 1]]);
      }
    }
    forall i, other | 0 <= i < |all| && other in keys && other !in all
      ensures Before(keys[all[i]], keys[other])
    {
      assert all[0] == id && other != id;
      assert other in rest;
    }
  }

  /** The order decides the selection: two selections with the same limit are the same list. */
  lemma {:induction false} SelectionUnique(keys: map<JobId, SortKey>, n: nat, xs: seq<JobId>, ys: seq<JobId>, i: nat)
    requires Keyed(keys) && IsSelection(keys, n, xs) && IsSelection(keys, n, ys)
    requires i <= |xs|
    ensures |xs| == |ys| && xs[..i] == ys[..i]
  {
    if i > 0 {
      SelectionUnique(keys, n, xs, ys, i - 1);
      var k := i - 1;
      AtLeastAsEarly(keys, n, xs, ys, k);
      AtLeastAsEarly(keys, n, ys, xs, k);
      assert xs[..i] == xs[..k] + [xs[k]] && ys[..i] == ys[..k] + [ys[k]];
    }
  }

  lemma AtLeastAsEarly(keys: map<JobId, SortKey>, n: nat, xs: seq<JobId>, ys: seq<JobId>, i: nat)
    requires Keyed(keys) && IsSelection(keys, n, xs) && IsSelection(keys, n, ys)
    requires i < |xs| && xs[..i] == ys[..i]
    ensures xs[i] == ys[i] || Before(keys[xs[i]], keys[ys[i]])
  {
    forall k | 0 <= k < i
      ensures xs[k] == ys[k]
    {
      assert xs[..i][k] == ys[..i][k];
    }
  }
}
