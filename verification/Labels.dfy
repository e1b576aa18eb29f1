/** Labels of the assembler: branches to a label that is not bound yet are emitted with a placeholder, and patched
    when the label is bound. Locations are 32-bit and wrap around. */
module Labels {
  import opened Types
  import opened ByteStrings
  import opened X86

  /** How far a signed displacement of so many bytes reaches. */
  predicate InReach(relative: int, size: nat) { size == 1 ==> -128 <= relative <= 127 }

  /** The 32-bit difference of two locations, as a signed number. */
  function Relative(destination: int, location: int): int { SignExtend32((destination - location) % TWO_32) }

  /** A conditional branch in the code that leads to a label: its displacement has `size` bytes. */
  datatype Branch = Branch(at: nat, condition: nat, size: nat, target: Label)

  predicate ValidBranch(b: Branch) { b.condition < 16 && b.size in {1, 4} }

  function OpcodeBytes(condition: nat, size: nat): seq<uint8>
    requires condition < 16
  {
    if size == 1 then [0x70 + condition] else [0x0F, 0x80 + condition]
  }

  function FieldOf(b: Branch): nat { if b.size == 1 then b.at + 1 else b.at + 2 }

  function EndOf(b: Branch): nat { FieldOf(b) + b.size }

  function DisplacementBytes(relative: int, size: nat): seq<uint8>
  {
    if size == 1 then [Low8(relative)] else Bytes32(relative)
  }

  /** The branch is in the code, whatever its displacement. */
  predicate IsIn(code: seq<uint8>, b: Branch)
  {
    ValidBranch(b) && EndOf(b) <= |code| && At(code, b.at, OpcodeBytes(b.condition, b.size))
  }

  /** Where the branch goes, as the processor decodes it. */
  predicate LeadsTo(code: seq<uint8>, start: nat, b: Branch, location: nat)
  {
    var d := Decode(code, b.at);
    && d.DecodedBranch? && d.condition == b.condition && d.length == EndOf(b) - b.at
    && (start + b.at + d.length + d.displacement) % TWO_32 == location
  }

  function Patched(code: seq<uint8>, offset: nat, bytes: seq<uint8>): seq<uint8>
    requires offset + |bytes| <= |code|
  {
    code[..offset] + bytes + code[offset + |bytes|..]
  }

  // ----- modular arithmetic -----

  lemma {:induction false} SameModulo(x: int, y: int, k: int)
    requires x == y + k * TWO_32
    ensures x % TWO_32 == y % TWO_32
  {
    var r := y % TWO_32;
    var q := y / TWO_32;
    assert y == q * TWO_32 + r;
    assert x == (q + k) * TWO_32 + r;
    Remainder(x, q + k, r);
  }

  lemma {:induction false} Remainder(x: int, q: int, r: int)
    requires x == q * TWO_32 + r && 0 <= r < TWO_32
    ensures x % TWO_32 == r
  {
  }

  /** A location plus the way to another one, modulo 2^32, is that one. */
  lemma {:induction false} GetsThere(from: int, destination: nat)
    requires destination < TWO_32
    ensures (from + Relative(destination, from % TWO_32)) % TWO_32 == destination
  {
    var f := from % TWO_32;
    var q := from / TWO_32;
    var r := (destination - f) % TWO_32;
    var k := (destination - f) / TWO_32;
    assert from == q * TWO_32 + f;
    assert destination - f == k * TWO_32 + r;
    var s := Relative(destination, f);
    assert s == r || s == r - TWO_32;
    if s == r {
      assert from + s == destination + (q - k) * TWO_32;
      SameModulo(from + s, destination, q - k);
    } else {
      assert from + s == destination + (q - k - 1) * TWO_32;
      SameModulo(from + s, destination, q - k - 1);
    }
    Remainder(destination, 0, destination);
  }

  /** The displacement that is written is the one that is read. */
  lemma {:induction false} WrittenIsRead(relative: int, size: nat)
    requires -0x8000_0000 <= relative < 0x8000_0000 && size in {1, 4} && InReach(relative, size)
    ensures size == 1 ==> SignExtend8(Low8(relative)) == relative
    ensures size == 4 ==> SignExtend32(Value32(Bytes32(relative))) == relative
  {
    if size == 1 {
      SignExtend8OfLow(relative);
    } else {
      SignExtend32OfBytes(relative);
    }
  }

  lemma {:induction false} RelativeBounded(destination: int, location: int)
    ensures -0x8000_0000 <= Relative(destination, location) < 0x8000_0000
  {
  }

  /** A branch with the right displacement leads to its destination. */
  lemma {:induction false} ResolvedLeads(code: seq<uint8>, start: nat, b: Branch, location: nat)
    requires IsIn(code, b) && location < TWO_32
    requires var relative := Relative(location, (start + EndOf(b)) % TWO_32);
      InReach(relative, b.size) && At(code, FieldOf(b), DisplacementBytes(relative, b.size))
    ensures LeadsTo(code, start, b, location)
  {
    hide Relative, SignExtend32, Value32, Bytes32;
    var relative := Relative(location, (start + EndOf(b)) % TWO_32);
    RelativeBounded(location, (start + EndOf(b)) % TWO_32);
    WrittenIsRead(relative, b.size);
    BranchReads(code, b, relative);
    GetsThere(start + EndOf(b), location);
  }

  lemma {:induction false} BranchReads(code: seq<uint8>, b: Branch, relative: int)
    requires IsIn(code, b) && At(code, FieldOf(b), DisplacementBytes(relative, b.size))
    ensures Decode(code, b.at) == DecodedBranch(b.condition, EndOf(b) - b.at, FieldOf(b),
              if b.size == 1 then SignExtend8(Low8(relative)) else SignExtend32(Value32(Bytes32(relative))))
  {
    hide SignExtend32, Value32, Bytes32;
    AtIndex(code, b.at, OpcodeBytes(b.condition, b.size), 0);
    if b.size == 1 {
      AtIndex(code, FieldOf(b), DisplacementBytes(relative, 1), 0);
    } else {
      AtIndex(code, b.at, OpcodeBytes(b.condition, b.size), 1);
      assert code[b.at + 2..b.at + 6] == Bytes32(relative);
    }
  }

  // ----- code that grows, and code that is patched -----

  lemma {:induction false} GrownStill(code: seq<uint8>, more: seq<uint8>, at: nat, part: seq<uint8>)
    requires At(code, at, part)
    ensures At(code + more, at, part)
  {
    assert (code + more)[at..at + |part|] == code[at..at + |part|];
  }

  lemma {:induction false} PatchedThere(code: seq<uint8>, offset: nat, bytes: seq<uint8>)
    requires offset + |bytes| <= |code|
    ensures |Patched(code, offset, bytes)| == |code| && At(Patched(code, offset, bytes), offset, bytes)
  {
    assert Patched(code, offset, bytes)[offset..offset + |bytes|] == bytes;
  }

  lemma {:induction false} PatchedElsewhere(code: seq<uint8>, offset: nat, bytes: seq<uint8>, at: nat, part: seq<uint8>)
    requires offset + |bytes| <= |code| && At(code, at, part)
    requires at + |part| <= offset || offset + |bytes| <= at
    ensures At(Patched(code, offset, bytes), at, part)
  {
    var p := Patched(code, offset, bytes);
    forall i | 0 <= i < |part| ensures p[at + i] == part[i] {
      AtIndex(code, at, part, i);
    }
    assert p[at..at + |part|] == part;
  }

  /** The displacement that a branch has in the code. */
  function Field(code: seq<uint8>, b: Branch): seq<uint8>
    requires EndOf(b) <= |code|
  {
    code[FieldOf(b)..EndOf(b)]
  }

  // ----- what holds of all branches and labels -----

  /** The branches are in the code, one behind the other. */
  ghost predicate InOrder(code: seq<uint8>, branches: seq<Branch>)
  {
    && (forall i :: 0 <= i < |branches| ==> IsIn(code, branches[i]))
    && (forall i, j :: 0 <= i < j < |branches| ==> EndOf(branches[i]) <= branches[j].at)
  }

  datatype Usage = Usage(location: nat, size: nat)

  function UsageOf(start: nat, b: Branch): Usage { Usage((start + FieldOf(b)) % TWO_32, b.size) }

  /** The uses are the branches to the label, in order. */
  ghost function UsesOf(start: nat, branches: seq<Branch>, target: Label): seq<Usage>
  {
    if branches == [] then []
    else
      var last := branches[|branches| - 1];
      UsesOf(start, branches[..|branches| - 1], target) + (if last.target == target then [UsageOf(start, last)] else [])
  }

  /** All branches to the label lead to the location. */
  ghost predicate AllLead(code: seq<uint8>, start: nat, branches: seq<Branch>, target: Label, location: nat)
  {
    forall i :: 0 <= i < |branches| && branches[i].target == target ==> LeadsTo(code, start, branches[i], location)
  }

  /** Every branch to the label can reach the location. */
  ghost predicate AllReach(start: nat, branches: seq<Branch>, target: Label, location: nat)
  {
    forall i :: 0 <= i < |branches| && branches[i].target == target ==> Reaches(start, branches[i], location)
  }

  predicate Reaches(start: nat, b: Branch, location: nat)
  {
    InReach(Relative(location, (start + EndOf(b)) % TWO_32), b.size)
  }

  // ----- locations -----

  lemma {:induction false} RelativeSame(destination: int, a: int, b: int, k: int)
    requires a == b + k * TWO_32
    ensures Relative(destination, a) == Relative(destination, b)
  {
    assert destination - a == (destination - b) + (0 - k) * TWO_32;
    SameModulo(destination - a, destination - b, 0 - k);
  }

  /** The end of a displacement, from its location. */
  lemma {:induction false} EndFromField(start: nat, b: Branch, destination: int)
    ensures Relative(destination, (start + FieldOf(b)) % TWO_32 + b.size)
      == Relative(destination, (start + EndOf(b)) % TWO_32)
  {
    hide Relative;
    var x, y := start + FieldOf(b), start + EndOf(b);
    var k := y / TWO_32 - x / TWO_32;
    assert x == x / TWO_32 * TWO_32 + x % TWO_32 && y == y / TWO_32 * TWO_32 + y % TWO_32;
    assert x % TWO_32 + b.size == y % TWO_32 + k * TWO_32;
    RelativeSame(destination, x % TWO_32 + b.size, y % TWO_32, k);
  }

  lemma {:induction false} OffsetOfLocation(start: nat, offset: nat)
    requires start < TWO_32 && offset < TWO_32
    ensures ((start + offset) % TWO_32 - start) % TWO_32 == offset
  {
    var x := start + offset;
    assert x % TWO_32 == x || x % TWO_32 == x - TWO_32;
    if x % TWO_32 == x {
      Remainder(offset, 0, offset);
    } else {
      Remainder(offset - TWO_32, -1, offset);
    }
  }

  // ----- uses -----

  lemma {:induction false} UseIsBranch(start: nat, branches: seq<Branch>, target: Label, i: nat) returns (j: nat)
    requires i < |UsesOf(start, branches, target)|
    ensures j < |branches| && branches[j].target == target
    ensures UsesOf(start, branches, target)[i] == UsageOf(start, branches[j])
  {
    var n := |branches| - 1;
    if i < |UsesOf(start, branches[..n], target)| {
      j := UseIsBranch(start, branches[..n], target, i);
    } else {
      j := n;
    }
  }

  lemma {:induction false} BranchIsUsed(start: nat, branches: seq<Branch>, target: Label, j: nat)
    requires j < |branches| && branches[j].target == target
    ensures UsageOf(start, branches[j]) in UsesOf(start, branches, target)
  {
    var n := |branches| - 1;
    if j < n {
      BranchIsUsed(start, branches[..n], target, j);
      assert branches[..n][j] == branches[j];
    }
  }

  lemma {:induction false} NoUses(start: nat, branches: seq<Branch>, target: Label)
    requires forall j :: 0 <= j < |branches| ==> branches[j].target != target
    ensures UsesOf(start, branches, target) == []
  {
    if branches != [] { NoUses(start, branches[..|branches| - 1], target); }
  }

  lemma {:induction false} OneMoreUse(start: nat, branches: seq<Branch>, b: Branch, target: Label)
    ensures UsesOf(start, branches + [b], target)
      == UsesOf(start, branches, target) + if b.target == target then [UsageOf(start, b)] else []
  {
    assert (branches + [b])[..|branches|] == branches;
  }

  // ----- branches in code that changes -----

  lemma {:induction false} DecodesField(code: seq<uint8>, b: Branch)
    requires IsIn(code, b)
    ensures Decode(code, b.at) == DecodedBranch(b.condition, EndOf(b) - b.at, FieldOf(b),
              if b.size == 1 then SignExtend8(code[FieldOf(b)]) else SignExtend32(Value32(code[FieldOf(b)..EndOf(b)])))
  {
    hide SignExtend32, Value32;
    AtIndex(code, b.at, OpcodeBytes(b.condition, b.size), 0);
    if b.size == 4 {
      AtIndex(code, b.at, OpcodeBytes(b.condition, b.size), 1);
    }
  }

  /** Where a branch leads depends on its own bytes only. */
  lemma {:induction false} SameFieldLeads(code: seq<uint8>, after: seq<uint8>, start: nat, b: Branch, location: nat)
    requires IsIn(code, b) && IsIn(after, b) && Field(code, b) == Field(after, b)
    ensures LeadsTo(code, start, b, location) <==> LeadsTo(after, start, b, location)
  {
    hide SignExtend32, Value32, Decode;
    DecodesField(code, b);
    DecodesField(after, b);
    assert b.size == 1 ==> Field(code, b)[0] == code[FieldOf(b)] && Field(after, b)[0] == after[FieldOf(b)];
  }

  /** Everything but the displacements of the branches to one label is as it was. */
  ghost predicate OthersKept(code: seq<uint8>, after: seq<uint8>, branches: seq<Branch>, target: Label)
  {
    |after| == |code| && forall x :: 0 <= x < |code| && !InField(branches, target, x) ==> after[x] == code[x]
  }

  /** Byte `x` belongs to the displacement of a branch to the label. */
  ghost predicate InField(branches: seq<Branch>, target: Label, x: int)
  {
    exists i :: 0 <= i < |branches| && branches[i].target == target && FieldOf(branches[i]) <= x < EndOf(branches[i])
  }

  /** That includes the displacements of all other branches. */
  lemma {:induction false} FieldKept(code: seq<uint8>, after: seq<uint8>, branches: seq<Branch>, target: Label, i: nat)
    requires InOrder(code, branches) && i < |branches| && branches[i].target != target
    requires OthersKept(code, after, branches, target)
    ensures EndOf(branches[i]) <= |code| && Field(after, branches[i]) == Field(code, branches[i])
  {
    InsideCode(code, branches[i]);
    forall x | FieldOf(branches[i]) <= x < EndOf(branches[i]) ensures after[x] == code[x] {
      assert !InField(branches, target, x);
    }
  }

  /** The branch has the displacement to the location. */
  predicate Resolved(code: seq<uint8>, start: nat, b: Branch, location: nat)
  {
    && Reaches(start, b, location)
    && At(code, FieldOf(b), DisplacementBytes(Relative(location, (start + EndOf(b)) % TWO_32), b.size))
  }

  lemma {:induction false} PatchKeepsBranch(code: seq<uint8>, branches: seq<Branch>, j: nat, bytes: seq<uint8>, i: nat)
    requires InOrder(code, branches) && i < |branches| && j < |branches| && |bytes| == branches[j].size
    ensures var after := Patched(code, FieldOf(branches[j]), bytes);
      && |after| == |code| && IsIn(after, branches[i])
      && (i != j ==> Field(after, branches[i]) == Field(code, branches[i]))
  {
    var b, c := branches[j], branches[i];
    assert |OpcodeBytes(c.condition, c.size)| == FieldOf(c) - c.at;
    PatchedThere(code, FieldOf(b), bytes);
    PatchedElsewhere(code, FieldOf(b), bytes, c.at, OpcodeBytes(c.condition, c.size));
    if i != j {
      PatchedElsewhere(code, FieldOf(b), bytes, FieldOf(c), Field(code, c));
    }
  }

  lemma {:induction false} PatchKeepsOrder(code: seq<uint8>, branches: seq<Branch>, j: nat, bytes: seq<uint8>)
    requires InOrder(code, branches) && j < |branches| && |bytes| == branches[j].size
    ensures var after := Patched(code, FieldOf(branches[j]), bytes);
      && InOrder(after, branches)
      && forall i :: 0 <= i < |branches| && i != j ==> Field(after, branches[i]) == Field(code, branches[i])
  {
    hide IsIn;
    InsideCode(code, branches[j]);
    var after := Patched(code, FieldOf(branches[j]), bytes);
    forall i | 0 <= i < |branches|
      ensures IsIn(after, branches[i]) && EndOf(branches[i]) <= |code| == |after|
      ensures i != j ==> Field(after, branches[i]) == Field(code, branches[i])
    {
      InsideCode(code, branches[i]);
      PatchKeepsBranch(code, branches, j, bytes, i);
    }
  }

  lemma {:induction false} InsideCode(code: seq<uint8>, b: Branch)
    requires IsIn(code, b)
    ensures EndOf(b) <= |code| && ValidBranch(b)
  {
  }

  /** The branches whose uses have been visited are resolved. */
  ghost predicate ResolvedUses(code: seq<uint8>, start: nat, branches: seq<Branch>, target: Label, location: nat,
                               visited: seq<Usage>)
  {
    forall j :: 0 <= j < |branches| && branches[j].target == target && UsageOf(start, branches[j]) in visited ==>
      Resolved(code, start, branches[j], location)
  }

  lemma {:induction false} SameFieldResolved(code: seq<uint8>, after: seq<uint8>, start: nat, b: Branch, location: nat)
    requires IsIn(code, b) && |after| == |code| && Field(after, b) == Field(code, b)
    requires Resolved(code, start, b, location)
    ensures Resolved(after, start, b, location)
  {
    hide Bytes32, Relative, OpcodeBytes;
    var d := DisplacementBytes(Relative(location, (start + EndOf(b)) % TWO_32), b.size);
    assert code[FieldOf(b)..FieldOf(b) + |d|] == Field(code, b);
    assert after[FieldOf(b)..FieldOf(b) + |d|] == Field(after, b);
  }

  /** Different branches have different uses. */
  lemma {:induction false} UseIsUnique(code: seq<uint8>, start: nat, branches: seq<Branch>, i: nat, j: nat)
    requires InOrder(code, branches) && i < |branches| && j < |branches| && |code| <= TWO_32 && start < TWO_32
    requires UsageOf(start, branches[i]) == UsageOf(start, branches[j])
    ensures i == j
  {
    InsideCode(code, branches[i]);
    InsideCode(code, branches[j]);
    OffsetOfLocation(start, FieldOf(branches[i]));
    OffsetOfLocation(start, FieldOf(branches[j]));
  }

  /** Resolving one more use. */
  lemma {:induction false} ResolveNext(code: seq<uint8>, after: seq<uint8>, start: nat, branches: seq<Branch>,
                                       target: Label, location: nat, visited: seq<Usage>, j: nat)
    requires InOrder(code, branches) && j < |branches| && branches[j].target == target
    requires |code| <= TWO_32 && start < TWO_32
    requires ResolvedUses(code, start, branches, target, location, visited) && Reaches(start, branches[j], location)
    requires after == Patched(code, FieldOf(branches[j]),
                              DisplacementBytes(Relative(location, (start + EndOf(branches[j])) % TWO_32),
                                                branches[j].size))
    ensures ResolvedUses(after, start, branches, target, location, visited + [UsageOf(start, branches[j])])
  {
    hide Bytes32, Relative, OpcodeBytes, Patched, UsageOf;
    var b := branches[j];
    InsideCode(code, b);
    var bytes := DisplacementBytes(Relative(location, (start + EndOf(b)) % TWO_32), b.size);
    PatchedThere(code, FieldOf(b), bytes);
    PatchKeepsOrder(code, branches, j, bytes);
    forall i | 0 <= i < |branches| && branches[i].target == target
             && UsageOf(start, branches[i]) in visited + [UsageOf(start, b)]
      ensures Resolved(after, start, branches[i], location)
    {
      if i != j {
        if UsageOf(start, branches[i]) == UsageOf(start, b) { UseIsUnique(code, start, branches, i, j); }
        SameFieldResolved(code, after, start, branches[i], location);
      }
    }
  }

  /** When all uses are resolved, all branches lead to the location. */
  lemma {:induction false} AllResolved(code: seq<uint8>, start: nat, branches: seq<Branch>, target: Label,
                                       location: nat)
    requires InOrder(code, branches) && location < TWO_32
    requires ResolvedUses(code, start, branches, target, location, UsesOf(start, branches, target))
    ensures AllLead(code, start, branches, target, location) && AllReach(start, branches, target, location)
  {
    hide LeadsTo, Relative, Bytes32, UsesOf, IsIn;
    forall j | 0 <= j < |branches| && branches[j].target == target
      ensures LeadsTo(code, start, branches[j], location) && Reaches(start, branches[j], location)
    {
      BranchIsUsed(start, branches, target, j);
      ResolvedLeads(code, start, branches[j], location);
    }
  }

  /** Branches that are as they were lead where they did. */
  lemma {:induction false} StillLead(code: seq<uint8>, after: seq<uint8>, start: nat, branches: seq<Branch>,
                                     target: Label, other: Label, location: nat)
    requires InOrder(code, branches) && InOrder(after, branches) && other != target
    requires OthersKept(code, after, branches, target) && AllLead(code, start, branches, other, location)
    ensures AllLead(after, start, branches, other, location)
  {
    hide LeadsTo, IsIn, OthersKept;
    forall i | 0 <= i < |branches| && branches[i].target == other
      ensures LeadsTo(after, start, branches[i], location)
    {
      FieldKept(code, after, branches, target, i);
      SameFieldLeads(code, after, start, branches[i], location);
    }
  }

  lemma {:induction false} GrownBranch(code: seq<uint8>, more: seq<uint8>, b: Branch)
    requires IsIn(code, b)
    ensures IsIn(code + more, b) && Field(code + more, b) == Field(code, b)
  {
    GrownStill(code, more, b.at, OpcodeBytes(b.condition, b.size));
    assert (code + more)[FieldOf(b)..EndOf(b)] == code[FieldOf(b)..EndOf(b)];
  }

  lemma {:induction false} GrownOrder(code: seq<uint8>, more: seq<uint8>, branches: seq<Branch>)
    requires InOrder(code, branches)
    ensures InOrder(code + more, branches)
  {
    hide IsIn;
    forall i | 0 <= i < |branches| ensures IsIn(code + more, branches[i]) {
      GrownBranch(code, more, branches[i]);
    }
  }

  lemma {:induction false} GrownLead(code: seq<uint8>, more: seq<uint8>, start: nat, branches: seq<Branch>,
                                     target: Label, location: nat)
    requires InOrder(code, branches) && AllLead(code, start, branches, target, location)
    ensures AllLead(code + more, start, branches, target, location)
  {
    hide LeadsTo, IsIn;
    forall i | 0 <= i < |branches| && branches[i].target == target
      ensures LeadsTo(code + more, start, branches[i], location)
    {
      GrownBranch(code, more, branches[i]);
      InsideCode(code, branches[i]);
      SameFieldLeads(code, code + more, start, branches[i], location);
    }
  }

  lemma {:induction false} AllInside(code: seq<uint8>, branches: seq<Branch>)
    requires InOrder(code, branches)
    ensures forall i :: 0 <= i < |branches| ==> EndOf(branches[i]) <= |code|
  {
  }

  // ----- one use at a time -----

  lemma {:induction false} NothingPatched(code: seq<uint8>, start: nat, branches: seq<Branch>, target: Label,
                                          location: nat)
    ensures OthersKept(code, code, branches, target)
    ensures ResolvedUses(code, start, branches, target, location, [])
  {
  }

  /** A use tells where the displacement of its branch is, and how far it has to reach. */
  lemma {:induction false} UseLocation(code: seq<uint8>, start: nat, branches: seq<Branch>, j: nat, location: nat)
    requires InOrder(code, branches) && j < |branches| && |code| <= TWO_32 && start < TWO_32
    ensures var b, u := branches[j], UsageOf(start, branches[j]);
      && (u.location - start) % TWO_32 == FieldOf(b) && EndOf(b) <= |code| && u.size == b.size && b.size in {1, 4}
      && Relative(location, u.location + u.size) == Relative(location, (start + EndOf(b)) % TWO_32)
  {
    hide Relative;
    InsideCode(code, branches[j]);
    OffsetOfLocation(start, FieldOf(branches[j]));
    EndFromField(start, branches[j], location);
  }

  lemma {:induction false} OutOfReach(start: nat, branches: seq<Branch>, target: Label, location: nat, j: nat)
    requires j < |branches| && branches[j].target == target && !Reaches(start, branches[j], location)
    ensures !AllReach(start, branches, target, location)
  {
  }

  lemma {:induction false} PatchOne(code0: seq<uint8>, code: seq<uint8>, after: seq<uint8>, branches: seq<Branch>,
                                    j: nat, bytes: seq<uint8>)
    requires InOrder(code, branches) && j < |branches| && |bytes| == branches[j].size
    requires EndOf(branches[j]) <= |code| && after == Patched(code, FieldOf(branches[j]), bytes)
    requires OthersKept(code0, code, branches, branches[j].target)
    ensures InOrder(after, branches) && |after| == |code| && OthersKept(code0, after, branches, branches[j].target)
  {
    hide InOrder;
    PatchKeepsOrder(code, branches, j, bytes);
    forall x | 0 <= x < |code0| && !InField(branches, branches[j].target, x) ensures after[x] == code0[x] {
      assert !(FieldOf(branches[j]) <= x < EndOf(branches[j]));
    }
  }

  // ----- emitting a branch -----

  /** A branch to its own start is within reach. */
  lemma {:induction false} ToItself(location: int)
    ensures Relative(location, location + 2) == -2
  {
    Remainder(location - (location + 2), -1, TWO_32 - 2);
  }

  /** The size of a branch to a label: a bound label within reach of a byte is given one if there is a choice, one
      out of reach four. */
  function BranchSize(bound: bool, short: bool, size: Option<nat>): nat
  {
    if !bound then (if size.None? then 4 else size.value)
    else if !short then 4
    else if size.None? then 1 else size.value
  }

  function EmittedBranch(condition: nat, size: nat, relative: int): seq<uint8>
    requires condition < 16
  {
    OpcodeBytes(condition, size) + DisplacementBytes(relative, size)
  }

  lemma {:induction false} EmittedIsIn(code: seq<uint8>, b: Branch, relative: int)
    requires ValidBranch(b) && b.at == |code|
    ensures var after := code + EmittedBranch(b.condition, b.size, relative);
      && IsIn(after, b) && EndOf(b) == |after| && At(after, FieldOf(b), DisplacementBytes(relative, b.size))
  {
    hide Bytes32;
    var opcode, d := OpcodeBytes(b.condition, b.size), DisplacementBytes(relative, b.size);
    var after := code + EmittedBranch(b.condition, b.size, relative);
    assert after == code + opcode + d;
    assert after[b.at..b.at + |opcode|] == opcode;
    assert after[FieldOf(b)..FieldOf(b) + |d|] == d;
  }

  lemma {:induction false} EmittedOrder(code: seq<uint8>, branches: seq<Branch>, b: Branch, relative: int)
    requires InOrder(code, branches) && ValidBranch(b) && b.at == |code|
    ensures InOrder(code + EmittedBranch(b.condition, b.size, relative), branches + [b])
  {
    hide IsIn, EmittedBranch;
    AllInside(code, branches);
    GrownOrder(code, EmittedBranch(b.condition, b.size, relative), branches);
    EmittedIsIn(code, b, relative);
  }

  /** The locations that the assembler computes for a branch are those of its displacement and its end. */
  lemma {:induction false} LocationOfBranch(start: nat, b: Branch, destination: int)
    requires b.size in {1, 4}
    ensures ((start + b.at) % TWO_32 + (FieldOf(b) - b.at)) % TWO_32 == (start + FieldOf(b)) % TWO_32
    ensures Relative(destination, (start + b.at) % TWO_32 + (EndOf(b) - b.at))
      == Relative(destination, (start + EndOf(b)) % TWO_32)
  {
    hide Relative;
    var x, y, f := start + b.at, start + EndOf(b), FieldOf(b) - b.at;
    assert x == x / TWO_32 * TWO_32 + x % TWO_32 && y == y / TWO_32 * TWO_32 + y % TWO_32;
    var k := y / TWO_32 - x / TWO_32;
    assert x % TWO_32 + (y - x) == y % TWO_32 + k * TWO_32;
    RelativeSame(destination, x % TWO_32 + (y - x), y % TWO_32, k);
    assert x % TWO_32 + f == (x + f) + (0 - x / TWO_32) * TWO_32;
    SameModulo(x % TWO_32 + f, x + f, 0 - x / TWO_32);
  }

  /** A branch to another label changes nothing about those to this one. */
  lemma {:induction false} EmittedLead(code: seq<uint8>, start: nat, branches: seq<Branch>, b: Branch, more: seq<uint8>,
                                       target: Label, location: nat)
    requires InOrder(code, branches) && AllLead(code, start, branches, target, location)
    requires b.target == target ==> LeadsTo(code + more, start, b, location)
    ensures AllLead(code + more, start, branches + [b], target, location)
  {
    hide LeadsTo, InOrder;
    GrownLead(code, more, start, branches, target, location);
  }

  // ----- the assembler and its labels -----

  class Label {
    const assm: Assembler
    var bound: bool
    var location: nat
    var uses: seq<Usage>
    /** Whether some use was out of reach when the label was bound. */
    ghost var failed: bool

    constructor (assm: Assembler)
      ensures this.assm == assm && !bound && location == 0 && uses == [] && !failed
    {
      this.assm := assm;
      bound, location, uses, failed := false, 0, [], false;
    }

    /** Declares the use of a label that is not bound yet. */
    method Use(location: nat, size: nat)
      requires !bound
      modifies this`uses
      ensures uses == old(uses) + [Usage(location, size)]
    {
      uses := uses + [Usage(location, size)];
    }

    /** Binds the label to the current location and patches the branches to it. This succeeds if and only if all
        of them reach it; then they lead there. */
    method Bind() returns (ok: bool)
      requires assm.Valid() && this in assm.labels && !bound
      modifies this, assm`code
      ensures assm.Valid() && bound && uses == [] && location == assm.Location()
      ensures OthersKept(old(assm.code), assm.code, assm.branches, this) && failed == !ok
      ensures ok <==> AllReach(assm.start, assm.branches, this, location)
      ensures ok ==> AllLead(assm.code, assm.start, assm.branches, this, location)
    {
      hide InOrder, UsesOf, AllLead, AllReach, OthersKept;
      ghost var code0 := assm.code;
      bound := true;
      location := assm.Location();
      ok := Finalize();
      failed := !ok;
      forall l | l in assm.labels ensures assm.Tracks(l) {
        if l != this && l.bound && !l.failed {
          StillLead(code0, assm.code, assm.start, assm.branches, this, l, l.location);
        }
      }
    }

    /** Patches the uses of the label one after the other, and forgets them. */
    method Finalize() returns (ok: bool)
      requires assm.Patchable() && bound && location < TWO_32 && uses == UsesOf(assm.start, assm.branches, this)
      modifies this`uses, assm`code
      ensures assm.Patchable() && uses == [] && |assm.code| == |old(assm.code)|
      ensures OthersKept(old(assm.code), assm.code, assm.branches, this)
      ensures ok <==> AllReach(assm.start, assm.branches, this, location)
      ensures ok ==> AllLead(assm.code, assm.start, assm.branches, this, location)
    {
      hide InOrder, IsIn, UsesOf, OthersKept, ResolvedUses, AllReach, AllLead, Relative;
      ok := true;
      ghost var code0, branches, start := assm.code, assm.branches, assm.start;
      NothingPatched(code0, start, branches, this, location);
      var n := 0;
      while n < |uses|
        invariant 0 <= n <= |uses| && ok && uses == UsesOf(start, branches, this)
        invariant assm.Patchable() && |assm.code| == |code0| && OthersKept(code0, assm.code, branches, this)
        invariant ResolvedUses(assm.code, start, branches, this, location, uses[..n])
      {
        ghost var code := assm.code;
        ghost var j := UseIsBranch(start, branches, this, n);
        UseLocation(code, start, branches, j, location);
        ok := assm.FinalizeLabel(uses[n].location, location, uses[n].size);
        if !ok {
          OutOfReach(start, branches, this, location, j);
          break;
        }
        ResolveNext(code, assm.code, start, branches, this, location, uses[..n], j);
        PatchOne(code0, code, assm.code, branches, j,
                 DisplacementBytes(Relative(location, (start + EndOf(branches[j])) % TWO_32), branches[j].size));
        assert uses[..n + 1] == uses[..n] + [uses[n]];
        n := n + 1;
      }
      if ok {
        assert uses[..n] == uses;
        AllResolved(assm.code, start, branches, this, location);
      }
      uses := [];
    }
  }

  class Assembler {
    const start: nat
    var code: seq<uint8>
    ghost var branches: seq<Branch>
    ghost var labels: set<Label>

    constructor (start: nat)
      requires start < TWO_32
      ensures this.start == start && code == [] && branches == [] && labels == {} && Valid()
    {
      this.start := start;
      code, branches, labels := [], [], {};
    }

    function Location(): (l: nat)
      reads this
      ensures l < TWO_32
    {
      (start + |code|) % TWO_32
    }

    /** Branches can be found by their locations. */
    ghost predicate Patchable()
      reads this
    {
      start < TWO_32 && |code| <= TWO_32 && InOrder(code, branches)
    }

    /** The label keeps track of all branches to it, until they lead to where it is bound. */
    ghost predicate Tracks(l: Label)
      reads this, l
    {
      && l.assm == this && l.location < TWO_32
      && (if l.bound then l.uses == [] else l.uses == UsesOf(start, branches, l) && !l.failed)
      && (l.bound && !l.failed ==> AllLead(code, start, branches, l, l.location))
    }

    ghost predicate Valid()
      reads this, labels
    {
      && Patchable()
      && (forall i :: 0 <= i < |branches| ==> branches[i].target in labels)
      && forall l :: l in labels ==> Tracks(l)
    }

    /** Makes a label that is not bound. */
    method NewLabel() returns (l: Label)
      requires Valid()
      modifies this`labels
      ensures Valid() && fresh(l) && labels == old(labels) + {l} && !l.bound && !l.failed
    {
      l := new Label(this);
      NoUses(start, branches, l);
      labels := labels + {l};
    }

    /** Emits an instruction that has nothing to do with labels. */
    method Output(instruction: seq<uint8>)
      requires Valid() && |code| + |instruction| <= TWO_32
      modifies this`code
      ensures Valid() && code == old(code) + instruction
    {
      hide InOrder, UsesOf, AllLead;
      ghost var before := code;
      code := code + instruction;
      GrownOrder(before, instruction, branches);
      forall l | l in labels ensures Tracks(l) {
        if l.bound && !l.failed {
          GrownLead(before, instruction, start, branches, l, l.location);
        }
      }
    }

    /** Writes the displacement from a location to a destination, if it fits. */
    method FinalizeLabel(location: nat, destination: nat, size: nat) returns (ok: bool)
      requires size in {1, 4} && (location - start) % TWO_32 + size <= |code|
      modifies this`code
      ensures ok <==> InReach(Relative(destination, location + size), size)
      ensures code == if ok
        then Patched(old(code), (location - start) % TWO_32,
                     DisplacementBytes(Relative(destination, location + size), size))
        else old(code)
    {
      var relative := Relative(destination, location + size);
      if size == 1 && (relative < -128 || relative > 127) {
        return false;
      }
      code := Patched(code, (location - start) % TWO_32, DisplacementBytes(relative, size));
      ok := true;
    }

    /** Emits a conditional branch to a label. A short one that is asked for and cannot reach the label fails. */
    method J(condition: nat, l: Label, requested: Option<nat>) returns (ok: bool)
      requires Valid() && l in labels && condition < 16 && |code| + 6 <= TWO_32
      requires requested.Some? ==> requested.value in {1, 4}
      modifies this`code, this`branches, l`uses
      ensures Valid() && old(code) <= code
      ensures ok ==> var d := Decode(code, |old(code)|);
        && d.DecodedBranch? && d.condition == condition && d.length == |code| - |old(code)|
        && (l.bound ==> (start + |code| + d.displacement) % TWO_32 == l.location)
      ensures var short := InReach(Relative(l.location, old(Location()) + 2), 1);
        && (ok <==> !(l.bound && !short && requested == Some(1)))
        && var size := BranchSize(l.bound, short, requested);
           (if ok then branches == old(branches) + [Branch(|old(code)|, condition, size, l)]
                       && |code| == |old(code)| + if size == 1 then 2 else 6
            else branches == old(branches) && code == old(code) && l.uses == old(l.uses))
    {
      var size, destination := if requested.None? then 0 else requested.value, Location();
      if l.bound {
        var offset := Relative(l.location, Location() + 2);
        if offset > 127 || offset < -128 {
          if size == 1 {
            return false;
          }
          size := 4;
        } else if size == 0 {
          size := 1;
        }
        destination := l.location;
      } else {
        if size == 0 {
          size := 4;
        }
        ToItself(destination);
      }
      EmitBranch(condition, l, size, destination);
      ok := true;
    }

    /** Emits a branch of the given size, and declares it to a label that is not bound yet. */
    method EmitBranch(condition: nat, l: Label, size: nat, destination: nat)
      requires Valid() && l in labels && condition < 16 && size in {1, 4} && |code| + 6 <= TWO_32
      requires destination < TWO_32 && InReach(Relative(destination, Location() + 2), size)
      requires l.bound ==> destination == l.location
      modifies this`code, this`branches, l`uses
      ensures Valid() && branches == old(branches) + [Branch(|old(code)|, condition, size, l)]
      ensures old(code) <= code && |code| == |old(code)| + if size == 1 then 2 else 6
      ensures LeadsTo(code, start, Branch(|old(code)|, condition, size, l), destination)
    {
      hide InOrder, UsesOf, AllLead, LeadsTo, Relative, IsIn, DisplacementBytes;
      ghost var before, b := code, Branch(|code|, condition, size, l);
      if !l.bound {
        l.Use((Location() + if size == 1 then 1 else 2) % TWO_32, size);
      }
      var relative := Relative(destination, Location() + if size == 1 then 2 else 6);
      code := code + EmittedBranch(condition, size, relative);
      branches := branches + [b];
      EmittedOrder(before, old(branches), b, relative);
      EmittedIsIn(before, b, relative);
      LocationOfBranch(start, b, destination);
      ResolvedLeads(code, start, b, destination);
      forall k | k in labels ensures Tracks(k) {
        OneMoreUse(start, old(branches), b, k);
        if k.bound && !k.failed {
          EmittedLead(before, start, old(branches), b, EmittedBranch(condition, size, relative), k, k.location);
        }
      }
    }
  }
}
