/** Maps keyed by offset that are visited in ascending order. */
module OrderedMaps {
  import opened Types
  import opened GraphSpecs

  predicate Ascending(s: seq<int>) { forall i, j :: 0 <= i < j < |s| ==> s[i] < s[j] }

  method Least(s: set<int>) returns (m: int)
    requires s != {}
    ensures m in s && forall x :: x in s ==> m <= x
  {
    m := Pick(s);
    var todo := s - {m};
    while todo != {}
      invariant todo <= s && m in s
      invariant forall x :: x in s && x !in todo ==> m <= x
      decreases |todo|
    {
      var x := Pick(todo);
      if x < m {
        m := x;
      }
      todo := todo - {x};
    }
  }

  /** The next element of a set whose iteration order does not matter. */
  method Pick<K(==)>(s: set<K>) returns (x: K)
    requires s != {}
    ensures x in s
  {
    x :| x in s;
  }

  /** The next referrer in an order in which the blocks may come in any order and the offsets of a block ascend. */
  method FirstReferrer(s: set<Referrer>) returns (r: Referrer)
    requires s != {}
    ensures r in s && forall q :: q in s && q.0 == r.0 ==> r.1 <= q.1
  {
    r := Pick(s);
    var offsets := set q | q in s && q.0 == r.0 :: q.1;
    assert r.1 in offsets;
    var o := Least(offsets);
    r := (r.0, o);
    assert forall q :: q in s && q.0 == r.0 ==> q.1 in offsets;
  }

  predicate IsLeast(m: int, keys: set<int>) { m in keys && forall x :: x in keys ==> m <= x }

  lemma {:induction false} Inhabited<K>(s: set<K>) returns (x: K)
    requires s != {}
    ensures x in s
  {
    x :| x in s;
  }

  lemma {:induction false} LeastExists(keys: set<int>) returns (m: int)
    requires keys != {}
    ensures IsLeast(m, keys)
    decreases |keys|
  {
    var k := Inhabited(keys);
    if keys == {k} {
      return k;
    }
    m := LeastExists(keys - {k});
    forall x | x in keys ensures m <= x || k <= x {
      assert x != k ==> x in keys - {k};
    }
    if k < m {
      m := k;
    }
  }

  ghost function LeastOf(keys: set<int>): (m: int)
    requires keys != {}
    ensures IsLeast(m, keys)
  {
    assert exists m :: IsLeast(m, keys) by { var m := LeastExists(keys); }
    var m :| IsLeast(m, keys);
    m
  }

  /** The elements of a set in ascending order. */
  ghost function Ascended(keys: set<int>): (s: seq<int>)
    ensures |s| == |keys|
    decreases |keys|
  {
    if keys == {} then [] else [LeastOf(keys)] + Ascended(keys - {LeastOf(keys)})
  }

  lemma {:induction false} AscendedMembers(keys: set<int>, x: int)
    ensures x in Ascended(keys) <==> x in keys
    decreases |keys|
  {
    if keys != {} {
      AscendedMembers(keys - {LeastOf(keys)}, x);
    }
  }

  lemma {:induction false} AscendedAscends(keys: set<int>)
    ensures Ascending(Ascended(keys))
    decreases |keys|
  {
    if keys != {} {
      var m := LeastOf(keys);
      var rest := Ascended(keys - {m});
      AscendedAscends(keys - {m});
      forall i | 0 <= i < |rest| ensures m < rest[i] {
        AscendedMembers(keys - {m}, rest[i]);
      }
    }
  }

  /** An ascending list of a set starts with its least element. */
  lemma {:induction false} FirstIsLeast(s: seq<int>, keys: set<int>)
    requires Ascending(s) && s != [] && forall x :: x in s <==> x in keys
    ensures keys != {} && s[0] == LeastOf(keys)
  {
    hide Ascended;
    assert s[0] in s;
    var m := LeastOf(keys);
    assert m in s;
    var i :| 0 <= i < |s| && s[i] == m;
  }

  lemma {:induction false} RestAscends(s: seq<int>, keys: set<int>, m: int)
    requires Ascending(s) && s != [] && s[0] == m && forall x :: x in s <==> x in keys
    ensures Ascending(s[1..]) && forall x :: x in s[1..] <==> x in keys - {m}
  {
    forall x ensures x in s[1..] <==> x in keys - {m} {
      assert x in s <==> x == m || x in s[1..];
      if x in s[1..] {
        var i :| 0 <= i < |s[1..]| && s[1..][i] == x;
        assert s[0] < s[i + 1];
      }
    }
  }

  lemma {:induction false} NoneListed(keys: set<int>)
    requires forall x :: x in keys ==> x in []
    ensures Ascended(keys) == []
  {
    if keys != {} {
      var x := Inhabited(keys);
      assert false;
    }
  }

  /** There is one way to list a set in ascending order. */
  lemma {:induction false} AscendedIs(s: seq<int>, keys: set<int>)
    requires Ascending(s) && forall x :: x in s <==> x in keys
    ensures s == Ascended(keys)
    decreases |keys|
  {
    if s == [] {
      NoneListed(keys);
      return;
    }
    FirstIsLeast(s, keys);
    RestAscends(s, keys, s[0]);
    hide Ascending, Ascended;
    AscendedIs(s[1..], keys - {s[0]});
    AscendedStep(keys);
    assert s == [s[0]] + s[1..];
  }

  lemma {:induction false} AscendedStep(keys: set<int>)
    requires keys != {}
    ensures Ascended(keys) == [LeastOf(keys)] + Ascended(keys - {LeastOf(keys)})
  {
  }

  lemma {:induction false} NextAscends(s: seq<int>, todo: set<int>, m: int)
    requires Ascending(s) && Below(s, todo) && IsLeast(m, todo)
    ensures Ascending(s + [m]) && Below(s + [m], todo - {m})
  {
    assert forall i :: 0 <= i < |s| ==> s[i] in s;
  }

  predicate Below(s: seq<int>, todo: set<int>) { forall x, y :: x in s && y in todo ==> x < y }

  /** The order in which an ordered map is visited. */
  method AscendingKeys(keys: set<int>) returns (s: seq<int>)
    ensures Ascending(s) && forall x :: x in s <==> x in keys
    ensures |s| == |keys| && s == Ascended(keys)
    ensures forall i :: 0 <= i < |s| ==> s[i] in keys
  {
    s := [];
    var todo := keys;
    assert Ascending(s) && Below(s, todo);
    hide Ascending, Ascended, Below;
    while todo != {}
      invariant todo <= keys && Ascending(s)
      invariant forall x :: x in keys <==> x in s || x in todo
      invariant Below(s, todo)
      invariant |s| + |todo| == |keys| && forall i :: 0 <= i < |s| ==> s[i] in keys
      decreases |todo|
    {
      var m := Least(todo);
      NextAscends(s, todo, m);
      todo := todo - {m};
      s := s + [m];
    }
    AscendedIs(s, keys);
  }

  /** What is at offset `x` when the items with offsets in [lo, hi) have been moved by `d`. */
  function MovedTo<T>(items: map<int, T>, lo: int, hi: int, d: int, x: int): Option<T>
  {
    if lo <= x - d < hi && x - d in items then Some(items[x - d])
    else if lo <= x < hi then None
    else Get(items, x)
  }

  ghost predicate PartMoved<T>(items: map<int, T>, lo: int, hi: int, d: int, r: map<int, T>)
  {
    forall x :: Get(r, x) == MovedTo(items, lo, hi, d, x)
  }

  /** Moves the items at and behind `offset` by `distance`. Moving right starts with the last item and
      moving left with the first, so that no item lands on one that has not been moved yet; a landing
      on an existing key would be ignored. */
  method ShiftOffsetItemMap<T>(offset: int, distance: int, items: map<int, T>) returns (r: map<int, T>)
    requires distance != 0 && GapFree(items.Keys, offset, distance)
    ensures r == ShiftKeys(items, offset, distance)
  {
    var its := AscendingKeys(set k | k in items && k >= offset);
    if distance > 0 {
      r := ShiftRight(offset, distance, items, its);
    } else {
      r := ShiftLeft(offset, distance, items, its);
    }
  }

  ghost predicate IteratorsFrom<T>(items: map<int, T>, offset: int, its: seq<int>)
  {
    Ascending(its) && forall k :: k in its <==> k in items && k >= offset
  }

  /** An offset just behind all items, and in front of it the offset of the item at position `i`. */
  ghost function Bound(its: seq<int>, i: nat, offset: int): int
    requires i <= |its|
  {
    if i < |its| then its[i] else if |its| > 0 then its[|its| - 1] + 1 else offset
  }

  lemma {:induction false} BoundStep<T>(items: map<int, T>, offset: int, its: seq<int>, i: nat, k: int)
    requires IteratorsFrom(items, offset, its) && i < |its|
    ensures its[i] in items && its[i] >= offset && its[i] < Bound(its, i + 1, offset)
    ensures Bound(its, i + 1, offset) <= Bound(its, |its|, offset)
    ensures k in items && k >= its[i] ==> k == its[i] || k >= Bound(its, i + 1, offset)
  {
    assert its[i] in its;
    if k in items && k >= offset {
      assert k in its;
      var j :| 0 <= j < |its| && its[j] == k;
    }
  }

  lemma {:induction false} BoundCovers<T>(items: map<int, T>, offset: int, its: seq<int>, k: int)
    requires IteratorsFrom(items, offset, its)
    ensures offset <= Bound(its, 0, offset)
    ensures k in items ==> k < offset || Bound(its, 0, offset) <= k < Bound(its, |its|, offset)
  {
    if |its| > 0 { assert its[0] in its; }
    if k in items && k >= offset {
      assert k in its;
      var j :| 0 <= j < |its| && its[j] == k;
    }
  }

  lemma {:induction false} NothingMoved<T>(items: map<int, T>, lo: int, d: int)
    ensures PartMoved(items, lo, lo, d, items)
  {
  }

  method ShiftRight<T>(offset: int, distance: int, items: map<int, T>, its: seq<int>) returns (r: map<int, T>)
    requires distance > 0 && IteratorsFrom(items, offset, its) && GapFree(items.Keys, offset, distance)
    ensures r == ShiftKeys(items, offset, distance)
  {
    r := items;
    var i := |its|;
    NothingMoved(items, Bound(its, i, offset), distance);
    while i > 0
      invariant 0 <= i <= |its|
      invariant PartMoved(items, Bound(its, i, offset), Bound(its, |its|, offset), distance, r)
    {
      i := i - 1;
      MoveRight(items, offset, distance, its, i, r);
      r := MoveItem(r, its[i], distance);
    }
    AllMoved(items, offset, distance, its, r);
  }

  lemma {:induction false} MoveRight<T>(items: map<int, T>, offset: int, d: int, its: seq<int>, i: nat, r: map<int, T>)
    requires d > 0 && IteratorsFrom(items, offset, its) && i < |its|
    requires PartMoved(items, Bound(its, i + 1, offset), Bound(its, |its|, offset), d, r)
    ensures var k := its[i];
      && k in r && k + d !in r
      && PartMoved(items, k, Bound(its, |its|, offset), d, r[k + d := r[k]] - {k})
  {
    var k, lo, hi := its[i], Bound(its, i + 1, offset), Bound(its, |its|, offset);
    BoundStep(items, offset, its, i, k);
    BoundStep(items, offset, its, i, k - d);
    BoundStep(items, offset, its, i, k + d);
    assert Get(r, k) == MovedTo(items, lo, hi, d, k);
    assert Get(r, k + d) == MovedTo(items, lo, hi, d, k + d);
    var next := r[k + d := r[k]] - {k};
    forall x ensures Get(next, x) == MovedTo(items, k, hi, d, x) {
      BoundStep(items, offset, its, i, x);
      BoundStep(items, offset, its, i, x - d);
      assert Get(r, x) == MovedTo(items, lo, hi, d, x);
    }
  }

  lemma {:induction false} AllMoved<T>(items: map<int, T>, offset: int, d: int, its: seq<int>, r: map<int, T>)
    requires IteratorsFrom(items, offset, its) && GapFree(items.Keys, offset, d)
    requires PartMoved(items, Bound(its, 0, offset), Bound(its, |its|, offset), d, r)
    ensures r == ShiftKeys(items, offset, d)
  {
    var lo, hi := Bound(its, 0, offset), Bound(its, |its|, offset);
    forall x ensures Get(r, x) == Get(ShiftKeys(items, offset, d), x) {
      ShiftKeysAt(items, offset, d, x);
      BoundCovers(items, offset, its, x);
      BoundCovers(items, offset, its, x - d);
      assert Get(r, x) == MovedTo(items, lo, hi, d, x);
    }
    SameItems(r, ShiftKeys(items, offset, d));
  }

  method ShiftLeft<T>(offset: int, distance: int, items: map<int, T>, its: seq<int>) returns (r: map<int, T>)
    requires distance < 0 && IteratorsFrom(items, offset, its) && GapFree(items.Keys, offset, distance)
    ensures r == ShiftKeys(items, offset, distance)
  {
    r := items;
    var i := 0;
    NothingMoved(items, Bound(its, 0, offset), distance);
    while i < |its|
      invariant 0 <= i <= |its|
      invariant PartMoved(items, Bound(its, 0, offset), Bound(its, i, offset), distance, r)
    {
      MoveLeft(items, offset, distance, its, i, r);
      r := MoveItem(r, its[i], distance);
      i := i + 1;
    }
    AllMoved(items, offset, distance, its, r);
  }

  lemma {:induction false} MoveLeft<T>(items: map<int, T>, offset: int, d: int, its: seq<int>, i: nat, r: map<int, T>)
    requires d < 0 && IteratorsFrom(items, offset, its) && i < |its| && GapFree(items.Keys, offset, d)
    requires PartMoved(items, Bound(its, 0, offset), its[i], d, r)
    ensures var k := its[i];
      && k in r && k + d !in r
      && PartMoved(items, Bound(its, 0, offset), Bound(its, i + 1, offset), d, r[k + d := r[k]] - {k})
  {
    var k, lo, hi := its[i], Bound(its, 0, offset), its[i];
    BoundStep(items, offset, its, i, k);
    BoundCovers(items, offset, its, k);
    BoundCovers(items, offset, its, k + d);
    assert Get(r, k) == MovedTo(items, lo, hi, d, k);
    assert Get(r, k + d) == MovedTo(items, lo, hi, d, k + d);
    var next, end := r[k + d := r[k]] - {k}, Bound(its, i + 1, offset);
    forall x ensures Get(next, x) == MovedTo(items, lo, end, d, x) {
      BoundStep(items, offset, its, i, x);
      BoundStep(items, offset, its, i, x - d);
      assert Get(r, x) == MovedTo(items, lo, hi, d, x);
    }
  }

  /** One insertion into an ordered map, which keeps an item that is already there, and one erasure. */
  method MoveItem<T>(items: map<int, T>, k: int, distance: int) returns (r: map<int, T>)
    requires k in items
    ensures k + distance !in items ==> r == items[k + distance := items[k]] - {k}
    ensures k + distance in items ==> r == items - {k}
  {
    r := items;
    if k + distance !in r {
      r := r[k + distance := r[k]];
    }
    r := r - {k};
  }
}
