/** The ranges of an address space: non-empty, disjoint and in address order. */
module AddressRanges {
  import opened Types

  datatype Entry = Entry(start: int, size: nat, block: BlockId)

  type Ranges = seq<Entry>

  predicate Ordered(rs: Ranges)
  {
    && (forall i :: 0 <= i < |rs| ==> rs[i].size > 0)
    && (forall i, j :: 0 <= i < j < |rs| ==> rs[i].start + rs[i].size <= rs[j].start)
  }

  predicate Intersects(e: Entry, start: int, size: nat)
  {
    !(start + size <= e.start || e.start + e.size <= start)
  }

  predicate IsFree(rs: Ranges, start: int, size: nat)
  {
    forall i :: 0 <= i < |rs| ==> !Intersects(rs[i], start, size)
  }

  /** The position of the first range that intersects the given one; the number of ranges if none does. */
  function FirstIntersection(rs: Ranges, start: int, size: nat): (i: nat)
    ensures i <= |rs|
    ensures forall j :: 0 <= j < i ==> !Intersects(rs[j], start, size)
    ensures i < |rs| ==> Intersects(rs[i], start, size)
    ensures i == |rs| <==> IsFree(rs, start, size)
  {
    if rs == [] then 0
    else if Intersects(rs[0], start, size) then 0
    else
      assert forall j :: 0 < j < |rs| ==> rs[j] == rs[1..][j - 1];
      1 + FirstIntersection(rs[1..], start, size)
  }

  /** The position at which a range that starts at `start` belongs. */
  function Position(rs: Ranges, start: int): (p: nat)
    ensures p <= |rs|
  {
    if rs == [] || rs[0].start >= start then 0 else 1 + Position(rs[1..], start)
  }

  function Inserted(rs: Ranges, e: Entry): Ranges
  {
    var p := Position(rs, e.start);
    rs[..p] + [e] + rs[p..]
  }

  function Removed(rs: Ranges, i: nat): Ranges
    requires i < |rs|
  {
    rs[..i] + rs[i + 1..]
  }

  lemma {:induction false} PositionSplits(rs: Ranges, start: int)
    requires Ordered(rs)
    ensures var p := Position(rs, start);
      && (forall i :: 0 <= i < p ==> rs[i].start < start)
      && (forall i :: p <= i < |rs| ==> rs[i].start >= start)
  {
    if rs != [] && rs[0].start < start {
      assert forall j :: 0 < j < |rs| ==> rs[j] == rs[1..][j - 1];
      PositionSplits(rs[1..], start);
    }
  }

  lemma {:induction false} InsertedOrdered(rs: Ranges, e: Entry, p: nat)
    requires Ordered(rs) && e.size > 0 && IsFree(rs, e.start, e.size) && p <= |rs|
    requires forall i :: 0 <= i < p ==> rs[i].start < e.start
    requires forall i :: p <= i < |rs| ==> rs[i].start >= e.start
    ensures Ordered(rs[..p] + [e] + rs[p..])
  {
    var s := rs[..p] + [e] + rs[p..];
    forall i | 0 <= i < |s| && i != p ensures s[i] == rs[if i < p then i else i - 1] {
    }
    forall i | 0 <= i < |rs|
      ensures if i < p then rs[i].start + rs[i].size <= e.start else e.start + e.size <= rs[i].start
    {
      assert !Intersects(rs[i], e.start, e.size);
    }
  }

  /** A range put into free space keeps the ranges in order, and is the only one that is new. */
  lemma {:induction false} InsertKeepsOrder(rs: Ranges, e: Entry)
    requires Ordered(rs) && e.size > 0 && IsFree(rs, e.start, e.size)
    ensures Ordered(Inserted(rs, e))
    ensures forall x :: x in Inserted(rs, e) <==> x == e || x in rs
  {
    PositionSplits(rs, e.start);
    var p := Position(rs, e.start);
    InsertedOrdered(rs, e, p);
    forall x ensures x in Inserted(rs, e) <==> x == e || x in rs {
      assert x in rs[..p] + rs[p..] <==> x in rs by { assert rs == rs[..p] + rs[p..]; }
    }
  }

  lemma {:induction false} RemoveKeepsOrder(rs: Ranges, i: nat)
    requires Ordered(rs) && i < |rs|
    ensures Ordered(Removed(rs, i))
    ensures forall x :: x in Removed(rs, i) <==> x in rs && x != rs[i]
  {
    var s := Removed(rs, i);
    assert rs == rs[..i] + [rs[i]] + rs[i + 1..];
    forall x | x in s ensures x in rs && x != rs[i] {
      var j :| 0 <= j < |s| && s[j] == x;
      if j < i { assert x == rs[j]; } else { assert x == rs[j + 1]; }
    }
  }
}
