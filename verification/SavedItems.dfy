/** Ordered maps in an archive: the items are saved in ascending order of their keys, and loaded one by one. */
module SavedItems {
  import opened Types
  import opened ByteStrings
  import opened OrderedMaps

  /** The bytes of the listed items, one after the other. */
  ghost function Listed<T>(f: (int, T) -> seq<uint8>, m: map<int, T>, ks: seq<int>): seq<uint8>
  {
    if ks == [] then []
    else
      var k := ks[|ks| - 1];
      Listed(f, m, ks[..|ks| - 1]) + (if k in m then f(k, m[k]) else [])
  }

  /** The bytes of a map. */
  ghost function Items<T>(f: (int, T) -> seq<uint8>, m: map<int, T>): seq<uint8> { Listed(f, m, Ascended(m.Keys)) }

  lemma {:induction false} ListedStep<T>(f: (int, T) -> seq<uint8>, m: map<int, T>, ks: seq<int>, i: nat)
    requires i < |ks| && ks[i] in m
    ensures Listed(f, m, ks[..i + 1]) == Listed(f, m, ks[..i]) + f(ks[i], m[ks[i]])
  {
    assert ks[..i + 1][..i] == ks[..i];
  }

  lemma {:induction false} ListedAt<T>(data: seq<uint8>, at: nat, f: (int, T) -> seq<uint8>, m: map<int, T>,
                                       ks: seq<int>, i: nat)
    requires At(data, at, Listed(f, m, ks)) && i < |ks| && ks[i] in m
    ensures At(data, at + |Listed(f, m, ks[..i])|, f(ks[i], m[ks[i]]))
    decreases |ks|
  {
    var n := |ks| - 1;
    var last := if ks[n] in m then f(ks[n], m[ks[n]]) else [];
    AtConcat(data, at, Listed(f, m, ks[..n]), last);
    if i < n {
      ListedAt(data, at, f, m, ks[..n], i);
      assert ks[..n][..i] == ks[..i];
    }
  }

  /** What is known after the first items have been loaded: a map with what is kept of them. */
  ghost function Taken<U>(kept: map<int, U>, ks: seq<int>): map<int, U>
  {
    if ks == [] then map[]
    else
      var k := ks[|ks| - 1];
      var before := Taken(kept, ks[..|ks| - 1]);
      if k in kept then before[k := kept[k]] else before
  }

  lemma {:induction false} TakenAt<U>(kept: map<int, U>, ks: seq<int>, k: int)
    ensures k in Taken(kept, ks) <==> k in ks && k in kept
    ensures k in Taken(kept, ks) ==> Taken(kept, ks)[k] == kept[k]
    decreases |ks|
  {
    if ks != [] {
      var n := |ks| - 1;
      TakenAt(kept, ks[..n], k);
      assert ks == ks[..n] + [ks[n]];
    }
  }

  lemma {:induction false} TakenAll<U>(kept: map<int, U>)
    ensures Taken(kept, Ascended(kept.Keys)) == kept
  {
    var ks := Ascended(kept.Keys);
    forall k ensures k in Taken(kept, ks) <==> k in kept {
      TakenAt(kept, ks, k);
      AscendedMembers(kept.Keys, k);
    }
    forall k | k in kept ensures Taken(kept, ks)[k] == kept[k] {
      TakenAt(kept, ks, k);
    }
  }

  /** The first `i` items of `m`, which starts at `start`, have been loaded, and what is kept of them is in `loaded`. */
  ghost predicate Loaded<T, U>(f: (int, T) -> seq<uint8>, m: map<int, T>, kept: map<int, U>, data: seq<uint8>,
                               start: nat, i: nat, pos: nat, loaded: map<int, U>)
  {
    var ks := Ascended(m.Keys);
    && kept.Keys == m.Keys && i <= |m| && At(data, start, Items(f, m))
    && pos == start + |Listed(f, m, ks[..i])| && loaded == Taken(kept, ks[..i])
  }

  lemma {:induction false} NoneLoaded<T, U>(f: (int, T) -> seq<uint8>, m: map<int, T>, kept: map<int, U>,
                                            data: seq<uint8>, start: nat)
    requires kept.Keys == m.Keys && At(data, start, Items(f, m))
    ensures Loaded(f, m, kept, data, start, 0, start, map[])
  {
  }

  /** The next item is ahead; its key is a new one, as the keys ascend. */
  lemma {:induction false} NextItem<T, U>(f: (int, T) -> seq<uint8>, m: map<int, T>, kept: map<int, U>,
                                          data: seq<uint8>, start: nat, i: nat, pos: nat, loaded: map<int, U>)
    returns (k: int)
    requires i < |m| && Loaded(f, m, kept, data, start, i, pos, loaded)
    ensures k == Ascended(m.Keys)[i] && k in m && k in kept && k !in loaded && At(data, pos, f(k, m[k]))
    ensures Loaded(f, m, kept, data, start, i + 1, pos + |f(k, m[k])|, loaded[k := kept[k]])
  {
    var ks := Ascended(m.Keys);
    k := ks[i];
    AscendedAscends(m.Keys);
    AscendedMembers(m.Keys, k);
    ListedStep(f, m, ks, i);
    ListedAt(data, start, f, m, ks, i);
    TakenAt(kept, ks[..i], k);
    assert ks[..i + 1][..i] == ks[..i];
  }

  lemma {:induction false} AllLoaded<T, U>(f: (int, T) -> seq<uint8>, m: map<int, T>, kept: map<int, U>,
                                           data: seq<uint8>, start: nat, pos: nat, loaded: map<int, U>)
    requires Loaded(f, m, kept, data, start, |m|, pos, loaded)
    ensures loaded == kept && pos == start + |Items(f, m)|
  {
    var ks := Ascended(m.Keys);
    assert ks[..|m|] == ks;
    TakenAll(kept);
  }
}
