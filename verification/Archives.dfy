/** Archives that values are saved to and loaded from, with the variable-length integers of the serializer.

    What is saved is stated by a function from values to bytes; a load method promises to give a value back
    where its bytes are, and leaves the archive behind them. */
module Archives {
  import opened Types
  import opened ByteStrings

  // ----- variable-length integers -----

  /** The number of bytes that an unsigned value takes: five bits in the first byte, eight in the others. */
  function Width(v: nat): (n: nat)
    ensures 1 <= n <= 5
  {
    if v >= 0x2000_0000 then 5 else if v >= 0x20_0000 then 4 else if v >= 0x2000 then 3 else if v >= 0x20 then 2 else 1
  }

  /** The lowest `k` bytes of a value, lowest first. */
  function LowBytes(v: nat, k: nat): (b: seq<uint8>)
    ensures |b| == k
  {
    if k == 0 then [] else [v % 256] + LowBytes(v / 256, k - 1)
  }

  function VarUint(v: nat): (b: seq<uint8>)
    ensures 1 <= |b| <= 5
  {
    [v % 32 + (Width(v) - 1) * 32] + LowBytes(v / 32, Width(v) - 1)
  }

  /** A signed value as an unsigned one, with the sign in the lowest bit. */
  function SignLast(v: int): nat { if v < 0 then 2 * (0 - v) + 1 else 2 * v }

  function VarInt(v: int): (b: seq<uint8>)
    ensures 1 <= |b| <= 5
  {
    VarUint(SignLast(v))
  }

  predicate FitsVarInt(v: int) { -0x8000_0000 < v < 0x8000_0000 }

  function Pow2(n: nat): (p: nat)
    ensures p > 0
  {
    if n == 0 then 1 else 2 * Pow2(n - 1)
  }

  /** A value with one more byte, which sits at bit `position`; bits beyond 32 are lost. */
  function WithByte(value: nat, byte: uint8, position: nat): (v: nat)
    ensures v < TWO_32
  {
    (value + byte * Pow2(position)) % TWO_32
  }

  lemma {:induction false} Pow2Plus8(n: nat)
    ensures Pow2(n + 8) == 256 * Pow2(n)
  {
    assert Pow2(n + 8) == 2 * Pow2(n + 7) == 4 * Pow2(n + 6);
    assert Pow2(n + 6) == 2 * Pow2(n + 5) == 4 * Pow2(n + 4);
    assert Pow2(n + 4) == 2 * Pow2(n + 3) == 4 * Pow2(n + 2);
    assert Pow2(n + 2) == 2 * Pow2(n + 1) == 4 * Pow2(n);
  }

  function Pow256(k: nat): (p: nat)
    ensures p > 0
  {
    if k == 0 then 1 else 256 * Pow256(k - 1)
  }

  lemma {:induction false} WidthSuffices(v: nat)
    requires v < TWO_32
    ensures v / 32 < Pow256(Width(v) - 1)
  {
    assert Pow256(1) == 256;
    assert Pow256(2) == 0x1_0000;
    assert Pow256(3) == 0x100_0000;
    assert Pow256(4) == TWO_32;
  }

  lemma {:induction false} LowestByte(p: nat, rest: nat)
    ensures p * rest == rest % 256 * p + 256 * p * (rest / 256)
    ensures rest % 256 * p <= p * rest
  {
    assert rest == rest % 256 + 256 * (rest / 256);
    assert p * rest == p * (rest % 256) + p * (256 * (rest / 256));
    assert p * (256 * (rest / 256)) == 256 * p * (rest / 256) >= 0;
  }

  /** A value cut down to 32 bits. */
  function Word(v: int): nat { if 0 <= v < TWO_32 then v else v % TWO_32 }

  // ----- strings -----

  predicate IsByteString(s: string) { forall i :: 0 <= i < |s| ==> s[i] as int < 256 }

  function StringBytes(s: string): (b: seq<uint8>)
    ensures |b| == |s|
  {
    seq(|s|, i requires 0 <= i < |s| => Low8(s[i] as int))
  }

  /** A string is saved with its length. */
  function SavedString(s: string): seq<uint8> { Bytes32(|s|) + StringBytes(s) }

  predicate FitsString(s: string) { IsByteString(s) && |s| < TWO_32 }

  class OutArchive {
    var bytes: seq<uint8>

    constructor ()
      ensures bytes == []
    {
      bytes := [];
    }

    method Write(data: seq<uint8>)
      modifies this
      ensures bytes == old(bytes) + data
    {
      bytes := bytes + data;
    }

    method SaveUint32(v: nat)
      requires v < TWO_32
      modifies this
      ensures bytes == old(bytes) + VarUint(v)
    {
      var left := 1;
      if v >= 0x2000_0000 {
        left := 5;
      } else if v >= 0x20_0000 {
        left := 4;
      } else if v >= 0x2000 {
        left := 3;
      } else if v >= 0x20 {
        left := 2;
      }
      // Output the value, lowest bits first, only five of them in the first byte.
      var byte: uint8 := v % 32 + (left - 1) * 32;
      var value: nat := v / 32;
      while true
        invariant left >= 1
        invariant bytes + ([byte] + LowBytes(value, left - 1)) == old(bytes) + VarUint(v)
        decreases left
      {
        ghost var before := bytes;
        bytes := bytes + [byte];
        left := left - 1;
        assert before + ([byte] + LowBytes(value, left)) == bytes + LowBytes(value, left);
        if left == 0 {
          break;
        }
        byte := value % 256;
        value := value / 256;
      }
    }

    method SaveInt32(v: int)
      requires FitsVarInt(v)
      modifies this
      ensures bytes == old(bytes) + VarInt(v)
    {
      var u := if v < 0 then 0 - v else v;
      u := u * 2;
      if v < 0 {
        u := u + 1;
      }
      SaveUint32(u);
    }

    method SaveString(s: string)
      modifies this
      ensures bytes == old(bytes) + SavedString(s)
    {
      Write(Bytes32(|s|));
      for i := 0 to |s|
        invariant bytes == old(bytes) + Bytes32(|s|) + StringBytes(s)[..i]
      {
        Write([Low8(s[i] as int)]);
      }
      assert StringBytes(s)[..|s|] == StringBytes(s);
    }
  }

  class InArchive {
    const bytes: seq<uint8>
    var pos: nat

    ghost predicate Valid()
      reads this
    {
      pos <= |bytes|
    }

    constructor (bytes: seq<uint8>)
      ensures this.bytes == bytes && pos == 0 && Valid()
    {
      this.bytes := bytes;
      pos := 0;
    }

    /** The bytes are at the current position. */
    ghost predicate Ahead(part: seq<uint8>)
      reads this
    {
      At(bytes, pos, part)
    }

    method Read(n: nat) returns (ok: bool, data: seq<uint8>)
      requires Valid()
      modifies this
      ensures Valid()
      ensures ok <==> old(pos) + n <= |bytes|
      ensures ok ==> pos == old(pos) + n && data == bytes[old(pos)..pos]
    {
      if pos + n > |bytes| {
        return false, [];
      }
      data := bytes[pos..pos + n];
      pos := pos + n;
      ok := true;
    }

    method ReadByte() returns (ok: bool, b: uint8)
      requires Valid()
      modifies this
      ensures Valid()
      ensures ok <==> old(pos) < |bytes|
      ensures ok ==> pos == old(pos) + 1 && b == bytes[old(pos)]
    {
      if pos >= |bytes| {
        return false, 0;
      }
      b := bytes[pos];
      pos := pos + 1;
      ok := true;
    }

    /** The parts of what is ahead are ahead one after the other. */
    lemma {:induction false} Split(a: seq<uint8>, b: seq<uint8>)
      requires Ahead(a + b)
      ensures Ahead(a) && At(bytes, pos + |a|, b)
    {
      AtConcat(bytes, pos, a, b);
    }

    method LoadByte(ghost v: uint8) returns (ok: bool, value: uint8)
      requires Valid()
      modifies this
      ensures Valid()
      ensures ok <==> old(pos) < |bytes|
      ensures ok ==> pos == old(pos) + 1 && value == bytes[old(pos)]
      ensures old(Ahead([v])) ==> ok && value == v && pos == old(pos) + 1
    {
      if Ahead([v]) {
        AtIndex(bytes, pos, [v], 0);
      }
      ok, value := ReadByte();
    }

    method Load16(ghost v: nat) returns (ok: bool, value: nat)
      requires Valid()
      modifies this
      ensures Valid()
      ensures old(v < 0x1_0000 && Ahead(Bytes16(v))) ==> ok && value == v && pos == old(pos) + 2
    {
      var data;
      ok, data := Read(2);
      value := 0;
      if ok {
        var low: int, high: int := data[0], data[1];
        value := low + 256 * high;
      }
    }

    method Load32(ghost v: int) returns (ok: bool, value: nat)
      requires Valid()
      modifies this
      ensures Valid() && (ok ==> value < TWO_32)
      ensures ok <==> old(pos) + 4 <= |bytes|
      ensures ok ==> pos == old(pos) + 4 && value == Value32(bytes[old(pos)..pos])
      ensures old(Ahead(Bytes32(v))) ==> ok && value == Word(v) && pos == old(pos) + 4
    {
      var data;
      ok, data := Read(4);
      value := 0;
      if ok {
        value := Value32(data);
        Value32OfBytes(v);
      }
    }

    /** What is left to be read of a value, `more` more bytes of it, where bytes from `pos` on are those of `rest`. */
    ghost predicate Loading(v: nat, temp: nat, position: nat, rest: nat, more: nat, end: nat)
      reads this
    {
      && v == temp + Pow2(position) * rest && rest < Pow256(more)
      && Ahead(LowBytes(rest, more)) && end == pos + more
    }

    method LoadUint32(ghost v: nat) returns (ok: bool, value: nat)
      requires Valid()
      modifies this
      ensures Valid() && (ok ==> value < TWO_32)
      ensures old(v < TWO_32 && Ahead(VarUint(v))) ==> ok && value == v && pos == old(pos) + |VarUint(v)|
    {
      var temp: nat, left: nat, position: nat := 0, 0, 0;
      ghost var saved := v < TWO_32 && Ahead(VarUint(v));
      ghost var end := pos + |VarUint(v)|;
      ghost var rest: nat := v;
      while true
        invariant Valid() && temp < TWO_32
        invariant position == 0 ==> pos == old(pos)
        invariant position > 0 && saved ==> Loading(v, temp, position, rest, left + 1, end)
        decreases position == 0, left
      {
        ghost var here := pos;
        var got, byte := ReadByte();
        if !got {
          return false, 0;
        }
        if position == 0 {
          // The first byte holds the number of the others and the lowest five bits.
          left := byte / 32;
          temp := byte % 32;
          position := 5;
          if saved {
            FirstByte(v, here);
            rest := v / 32;
          }
        } else {
          if saved {
            NextByte(v, temp, position, rest, left, here, end);
            rest := rest / 256;
          }
          temp := WithByte(temp, byte, position);
          position := position + 8;
        }
        if left == 0 {
          break;
        }
        left := left - 1;
      }
      assert saved ==> Pow2(position) * 0 == 0;
      return true, temp;
    }

    lemma {:induction false} FirstByte(v: nat, here: nat)
      requires v < TWO_32 && At(bytes, here, VarUint(v)) && pos == here + 1
      ensures bytes[here] / 32 == Width(v) - 1 && bytes[here] % 32 == v % 32
      ensures Loading(v, v % 32, 5, v / 32, Width(v) - 1, here + |VarUint(v)|)
    {
      AtIndex(bytes, here, VarUint(v), 0);
      AtConcat(bytes, here, [v % 32 + (Width(v) - 1) * 32], LowBytes(v / 32, Width(v) - 1));
      WidthSuffices(v);
      assert Pow2(5) == 32;
    }

    lemma {:induction false} NextByte(v: nat, temp: nat, position: nat, rest: nat, left: nat, here: nat, end: nat)
      requires v < TWO_32 && pos == here + 1
      requires v == temp + Pow2(position) * rest && rest < Pow256(left + 1)
      requires At(bytes, here, LowBytes(rest, left + 1)) && end == here + left + 1
      ensures Loading(v, WithByte(temp, bytes[here], position), position + 8, rest / 256, left, end)
    {
      AtIndex(bytes, here, LowBytes(rest, left + 1), 0);
      AtConcat(bytes, here, [rest % 256], LowBytes(rest / 256, left));
      Pow2Plus8(position);
      LowestByte(Pow2(position), rest);
    }

    method LoadInt32(ghost v: int) returns (ok: bool, value: int)
      requires Valid()
      modifies this
      ensures Valid()
      ensures old(FitsVarInt(v) && Ahead(VarInt(v))) ==> ok && value == v && pos == old(pos) + |VarInt(v)|
    {
      var u;
      ok, u := LoadUint32(SignLast(v));
      value := u / 2;
      if u % 2 == 1 {
        value := 0 - value;
      }
    }

    method LoadString(ghost s: string) returns (ok: bool, value: string)
      requires Valid()
      modifies this
      ensures Valid() && (ok ==> IsByteString(value))
      ensures old(FitsString(s) && Ahead(SavedString(s))) ==>
                ok && value == s && pos == old(pos) + |SavedString(s)|
    {
      ghost var saved := FitsString(s) && Ahead(SavedString(s));
      if saved {
        AtConcat(bytes, pos, Bytes32(|s|), StringBytes(s));
      }
      var size;
      value := "";
      ok, size := Load32(|s|);
      if !ok {
        return;
      }
      var data;
      ok, data := Read(size);
      if ok {
        value := seq(size, i requires 0 <= i < size => data[i] as char);
        assert saved ==> data == StringBytes(s) && forall i :: 0 <= i < |s| ==>
          value[i] as int == data[i] == s[i] as int;
      }
    }
  }
}
