/** The symbol tables of an archive. */
module ArTables {
  import opened Types
  import opened ByteStrings
  import opened ArSymbols
  import opened ArHeaders
  import opened OrderedMaps

  // ----- what is in the tables -----

  /** A symbol and the file it belongs to. */
  datatype Symbol = Symbol(name: Name, file: nat)

  function BigEndian32(v: nat): (b: seq<uint8>)
    ensures |b| == 4
  {
    var b := Bytes32(v);
    [b[3], b[2], b[1], b[0]]
  }

  function Offsets(offsets: seq<nat>): (b: seq<uint8>)
    ensures |b| == 4 * |offsets|
  {
    if offsets == [] then [] else Offsets(offsets[..|offsets| - 1]) + Bytes32(offsets[|offsets| - 1])
  }

  /** The file indices of the symbols, counted from one. */
  function Indices(symbols: seq<Symbol>): (b: seq<uint8>)
    ensures |b| == 2 * |symbols|
  {
    if symbols == [] then [] else Indices(symbols[..|symbols| - 1]) + Bytes16(symbols[|symbols| - 1].file + 1)
  }

  /** The names of the symbols, each with a zero behind it. */
  function Names(symbols: seq<Symbol>): seq<uint8>
  {
    if symbols == [] then [] else Names(symbols[..|symbols| - 1]) + (symbols[|symbols| - 1].name + [0])
  }

  function SecondaryTable(offsets: seq<nat>, symbols: seq<Symbol>): seq<uint8>
  {
    Bytes32(|offsets|) + (Offsets(offsets) + (Bytes32(|symbols|) + (Indices(symbols) + Names(symbols))))
  }

  /** The offsets of the symbols' files. */
  function SymbolOffsets(offsets: seq<nat>, symbols: seq<Symbol>): (b: seq<uint8>)
    ensures |b| == 4 * |symbols|
  {
    if symbols == [] then []
    else
      var file := symbols[|symbols| - 1].file;
      SymbolOffsets(offsets, symbols[..|symbols| - 1]) + BigEndian32(if file < |offsets| then offsets[file] else 0)
  }

  function PrimaryTable(offsets: seq<nat>, symbols: seq<Symbol>): seq<uint8>
  {
    BigEndian32(|symbols|) + SymbolOffsets(offsets, symbols) + Names(symbols)
  }

  /** How long the tables are does not depend on where the files are. */
  lemma {:induction false} TableLengths(a: seq<nat>, b: seq<nat>, symbols: seq<Symbol>)
    requires |a| == |b|
    ensures |SecondaryTable(a, symbols)| == |SecondaryTable(b, symbols)|
    ensures |PrimaryTable(a, symbols)| == |PrimaryTable(b, symbols)|
  {
  }

  /** The symbols are those of a map. */
  ghost predicate Lists(symbols: seq<Symbol>, table: map<Name, nat>)
  {
    && (forall i :: 0 <= i < |symbols| ==> symbols[i].name in table && table[symbols[i].name] == symbols[i].file)
    && (forall i, j :: 0 <= i < j < |symbols| ==> symbols[i].name != symbols[j].name)
    && |symbols| == |table|
  }

  /** The map of the symbols; of several with the same name the first one counts. */
  function TableOf(symbols: seq<Symbol>): map<Name, nat>
  {
    if symbols == [] then map[]
    else
      var last, table := symbols[|symbols| - 1], TableOf(symbols[..|symbols| - 1]);
      if last.name in table then table else table[last.name := last.file]
  }

  /** The symbol at position `i` is the first one with its name. */
  predicate IsFirst(symbols: seq<Symbol>, i: nat)
    requires i < |symbols|
  {
    forall j :: 0 <= j < i ==> symbols[j].name != symbols[i].name
  }

  lemma {:induction false} InTableOf(symbols: seq<Symbol>, name: Name)
    ensures name in TableOf(symbols) <==> exists i :: 0 <= i < |symbols| && symbols[i].name == name
  {
    if symbols != [] { InTableOf(symbols[..|symbols| - 1], name); }
  }

  lemma {:induction false} TableOfFirst(symbols: seq<Symbol>, i: nat)
    requires i < |symbols| && IsFirst(symbols, i)
    ensures symbols[i].name in TableOf(symbols) && TableOf(symbols)[symbols[i].name] == symbols[i].file
    decreases |symbols|
  {
    var n := |symbols| - 1;
    if i < n {
      assert IsFirst(symbols[..n], i);
      TableOfFirst(symbols[..n], i);
    } else {
      InTableOf(symbols[..n], symbols[n].name);
    }
  }

  lemma {:induction false} TableSize(symbols: seq<Symbol>)
    requires forall i, j :: 0 <= i < j < |symbols| ==> symbols[i].name != symbols[j].name
    ensures |TableOf(symbols)| == |symbols|
  {
    if symbols != [] {
      var n := |symbols| - 1;
      TableSize(symbols[..n]);
      InTableOf(symbols[..n], symbols[n].name);
    }
  }

  lemma {:induction false} SubsetSameSize<K>(a: set<K>, b: set<K>)
    requires a <= b && |a| == |b|
    ensures a == b
  {
    var rest := b - a;
    assert b == a + rest && a !! rest;
    assert |b| == |a| + |rest|;
  }

  /** A listing of a map gives it back. */
  lemma {:induction false} ListsTable(symbols: seq<Symbol>, table: map<Name, nat>)
    requires Lists(symbols, table)
    ensures TableOf(symbols) == table
  {
    var t := TableOf(symbols);
    forall name | name in t ensures name in table && t[name] == table[name] {
      InTableOf(symbols, name);
      var i :| 0 <= i < |symbols| && symbols[i].name == name;
      TableOfFirst(symbols, i);
    }
    TableSize(symbols);
    assert |t.Keys| == |t| == |table| == |table.Keys|;
    SubsetSameSize(t.Keys, table.Keys);
  }

  // ----- reading -----

  predicate Has(data: seq<uint8>, pos: nat, n: nat) { pos + n <= |data| }

  function Read32(data: seq<uint8>, pos: nat): nat
    requires Has(data, pos, 4)
  {
    Value32(data[pos..pos + 4])
  }

  function Read16(data: seq<uint8>, pos: nat): nat
    requires Has(data, pos, 2)
  {
    var low: int, high: int := data[pos], data[pos + 1];
    low + 256 * high
  }

  lemma {:induction false} Read32At(data: seq<uint8>, pos: nat, v: nat)
    requires At(data, pos, Bytes32(v)) && v < TWO_32
    ensures Has(data, pos, 4) && Read32(data, pos) == v
  {
    Value32OfBytes(v);
  }

  lemma {:induction false} Read16At(data: seq<uint8>, pos: nat, v: nat)
    requires At(data, pos, Bytes16(v)) && v < 0x1_0000
    ensures Has(data, pos, 2) && Read16(data, pos) == v
  {
    AtIndex(data, pos, Bytes16(v), 0);
    AtIndex(data, pos, Bytes16(v), 1);
  }

  /** A number whose highest byte comes first. */
  function ReadBig32(data: seq<uint8>, pos: nat): nat
    requires Has(data, pos, 4)
  {
    Value32([data[pos + 3], data[pos + 2], data[pos + 1], data[pos]])
  }

  lemma {:induction false} ReadBig32At(data: seq<uint8>, pos: nat, v: nat)
    requires At(data, pos, BigEndian32(v)) && v < TWO_32
    ensures Has(data, pos, 4) && ReadBig32(data, pos) == v
  {
    var b := Bytes32(v);
    AtIndex(data, pos, BigEndian32(v), 0);
    AtIndex(data, pos, BigEndian32(v), 1);
    AtIndex(data, pos, BigEndian32(v), 2);
    AtIndex(data, pos, BigEndian32(v), 3);
    assert [data[pos + 3], data[pos + 2], data[pos + 1], data[pos]] == b;
    Value32OfBytes(v);
  }

  lemma {:induction false} SymbolOffsetAt(data: seq<uint8>, pos: nat, offsets: seq<nat>, symbols: seq<Symbol>, k: nat)
    requires At(data, pos, SymbolOffsets(offsets, symbols)) && k < |symbols| && symbols[k].file < |offsets|
    ensures At(data, pos + 4 * k, BigEndian32(offsets[symbols[k].file]))
    decreases |symbols|
  {
    hide BigEndian32;
    var n := |symbols| - 1;
    var last := BigEndian32(if symbols[n].file < |offsets| then offsets[symbols[n].file] else 0);
    AtConcat(data, pos, SymbolOffsets(offsets, symbols[..n]), last);
    if k < n { SymbolOffsetAt(data, pos, offsets, symbols[..n], k); }
  }

  /** What the primary table says: how many symbols there are, and of each one where its file is and its name. */
  lemma {:induction false} PrimaryTableAt(data: seq<uint8>, pos: nat, offsets: seq<nat>, symbols: seq<Symbol>, k: nat)
    requires At(data, pos, PrimaryTable(offsets, symbols)) && k < |symbols| < TWO_32
    requires symbols[k].file < |offsets| && offsets[symbols[k].file] < TWO_32
    ensures Has(data, pos, 4 + 4 * |symbols|) && ReadBig32(data, pos) == |symbols|
    ensures Has(data, pos + 4 + 4 * k, 4) && ReadBig32(data, pos + 4 + 4 * k) == offsets[symbols[k].file]
    ensures At(data, pos + 4 + 4 * |symbols| + |Names(symbols[..k])|, symbols[k].name + [0])
  {
    hide BigEndian32, SymbolOffsets, Names, At;
    AtConcat(data, pos, BigEndian32(|symbols|) + SymbolOffsets(offsets, symbols), Names(symbols));
    AtConcat(data, pos, BigEndian32(|symbols|), SymbolOffsets(offsets, symbols));
    ReadBig32At(data, pos, |symbols|);
    SymbolOffsetAt(data, pos + 4, offsets, symbols, k);
    ReadBig32At(data, pos + 4 + 4 * k, offsets[symbols[k].file]);
    NameAt(data, pos + 4 + 4 * |symbols|, symbols, k);
    AtHas(data, pos + 4, SymbolOffsets(offsets, symbols));
  }

  lemma {:induction false} AtHas(data: seq<uint8>, pos: nat, part: seq<uint8>)
    requires At(data, pos, part)
    ensures Has(data, pos, |part|)
  {
  }

  lemma {:induction false} OffsetAt(data: seq<uint8>, pos: nat, offsets: seq<nat>, i: nat)
    requires At(data, pos, Offsets(offsets)) && i < |offsets|
    ensures At(data, pos + 4 * i, Bytes32(offsets[i]))
    decreases |offsets|
  {
    hide Bytes32;
    var n := |offsets| - 1;
    AtConcat(data, pos, Offsets(offsets[..n]), Bytes32(offsets[n]));
    if i < n { OffsetAt(data, pos, offsets[..n], i); }
  }

  lemma {:induction false} IndexAt(data: seq<uint8>, pos: nat, symbols: seq<Symbol>, i: nat)
    requires At(data, pos, Indices(symbols)) && i < |symbols|
    ensures At(data, pos + 2 * i, Bytes16(symbols[i].file + 1))
    decreases |symbols|
  {
    hide Bytes16;
    var n := |symbols| - 1;
    AtConcat(data, pos, Indices(symbols[..n]), Bytes16(symbols[n].file + 1));
    if i < n { IndexAt(data, pos, symbols[..n], i); }
  }

  lemma {:induction false} NameAt(data: seq<uint8>, pos: nat, symbols: seq<Symbol>, i: nat)
    requires At(data, pos, Names(symbols)) && i < |symbols|
    ensures At(data, pos + |Names(symbols[..i])|, symbols[i].name + [0])
    ensures |Names(symbols[..i + 1])| == |Names(symbols[..i])| + |symbols[i].name| + 1
    decreases |symbols|
  {
    var n := |symbols| - 1;
    assert symbols[..i + 1][..i] == symbols[..i];
    AtConcat(data, pos, Names(symbols[..n]), symbols[n].name + [0]);
    if i < n {
      NameAt(data, pos, symbols[..n], i);
      assert symbols[..n][..i] == symbols[..i];
      assert symbols[..n][..i + 1] == symbols[..i + 1];
    }
  }

  lemma {:induction false} NameReads(data: seq<uint8>, pos: nat, name: Name)
    requires At(data, pos, name + [0]) && ZeroFree(name)
    ensures CString(data[pos..]) == name
  {
    var rest := data[pos + |name| + 1..];
    assert data[pos..] == name + [0] + rest by {
      assert data[pos..] == data[pos..pos + |name| + 1] + rest;
    }
    CStringIs(name, rest);
  }

  ghost predicate OffsetsFit(offsets: seq<nat>, fileSize: nat)
  {
    forall i :: 0 <= i < |offsets| ==> offsets[i] < fileSize && offsets[i] < TWO_32
  }

  /** What offsets and symbols must be like so that they can be read. Names may come up several times, and files
      may have been deleted, which a zero offset says; but no symbol is in a deleted file. */
  ghost predicate TableFits(offsets: seq<nat>, symbols: seq<Symbol>, fileSize: nat)
  {
    && |offsets| < 0xFFFF && |symbols| < TWO_32
    && OffsetsFit(offsets, fileSize)
    && (forall i :: 0 <= i < |symbols| ==> SymbolFits(offsets, symbols[i]))
  }

  predicate SymbolFits(offsets: seq<nat>, s: Symbol)
  {
    s.name != [] && ZeroFree(s.name) && s.file < |offsets| && offsets[s.file] != 0
  }

  // ----- deleted files -----

  /** The offsets of the files that have not been deleted. */
  function Present(offsets: seq<nat>): seq<nat>
  {
    if offsets == [] then []
    else
      var n := |offsets| - 1;
      if offsets[n] == 0 then Present(offsets[..n]) else Present(offsets[..n]) + [offsets[n]]
  }

  /** The number of a file when deleted ones are not counted. */
  function NewIndex(offsets: seq<nat>, i: nat): nat
    requires i <= |offsets|
  {
    |Present(offsets[..i])|
  }

  function Renumbered(offsets: seq<nat>, symbols: seq<Symbol>): (r: seq<Symbol>)
    requires forall i :: 0 <= i < |symbols| ==> symbols[i].file < |offsets|
    ensures |r| == |symbols|
  {
    seq(|symbols|, i requires 0 <= i < |symbols| => Symbol(symbols[i].name, NewIndex(offsets, symbols[i].file)))
  }

  /** If no file has been deleted, nothing is numbered anew. */
  lemma {:induction false} AllPresent(offsets: seq<nat>)
    requires forall i :: 0 <= i < |offsets| ==> offsets[i] != 0
    ensures Present(offsets) == offsets
  {
    if offsets != [] { AllPresent(offsets[..|offsets| - 1]); }
  }

  lemma {:induction false} NoneRenumbered(offsets: seq<nat>, symbols: seq<Symbol>)
    requires forall i :: 0 <= i < |offsets| ==> offsets[i] != 0
    requires forall i :: 0 <= i < |symbols| ==> symbols[i].file < |offsets|
    ensures Renumbered(offsets, symbols) == symbols
  {
    forall i | 0 <= i < |symbols| ensures Renumbered(offsets, symbols)[i] == symbols[i] {
      AllPresent(offsets[..symbols[i].file]);
    }
  }

  lemma {:induction false} RenumberedAt(offsets: seq<nat>, symbols: seq<Symbol>, i: nat)
    requires i < |symbols| && forall j :: 0 <= j < |symbols| ==> symbols[j].file < |offsets|
    ensures Renumbered(offsets, symbols)[i] == Symbol(symbols[i].name, NewIndex(offsets, symbols[i].file))
  {
  }

  lemma {:induction false} PresentUpTo(offsets: seq<nat>, i: nat)
    requires i < |offsets|
    ensures Present(offsets[..i + 1]) == Present(offsets[..i]) + if offsets[i] == 0 then [] else [offsets[i]]
  {
    assert offsets[..i + 1][..i] == offsets[..i];
  }

  lemma {:induction false} WholeIsAt(data: seq<uint8>)
    ensures At(data, 0, data)
  {
  }

  /** Where the parts of a table are. */
  lemma {:induction false} TableParts(data: seq<uint8>, offsets: seq<nat>, symbols: seq<Symbol>)
    requires data == SecondaryTable(offsets, symbols)
    ensures var n, m := 4 * |offsets|, 2 * |symbols|;
      && |data| == 8 + n + m + |Names(symbols)|
      && At(data, 0, Bytes32(|offsets|)) && At(data, 4, Offsets(offsets)) && At(data, 4 + n, Bytes32(|symbols|))
      && At(data, 8 + n, Indices(symbols)) && At(data, 8 + n + m, Names(symbols))
  {
    hide Bytes32, Offsets, Indices, Names;
    var r4 := Indices(symbols) + Names(symbols);
    var r3 := Bytes32(|symbols|) + r4;
    var r2 := Offsets(offsets) + r3;
    WholeIsAt(data);
    AtConcat(data, 0, Bytes32(|offsets|), r2);
    AtConcat(data, 4, Offsets(offsets), r3);
    AtConcat(data, 4 + 4 * |offsets|, Bytes32(|symbols|), r4);
    AtConcat(data, 8 + 4 * |offsets|, Indices(symbols), Names(symbols));
  }

  /** The numbers of the first `n` files that have not been deleted. */
  ghost predicate Numbers(offsets: seq<nat>, n: nat, indexMap: map<nat, nat>)
    requires n <= |offsets|
  {
    forall k :: 0 <= k < n && offsets[k] != 0 ==> k in indexMap && indexMap[k] == NewIndex(offsets, k)
  }

  /** The offset of file `i` is in the archive, or it is zero: the file has been deleted. */
  predicate OffsetIsInside(data: seq<uint8>, i: nat, fileSize: nat)
  {
    Has(data, 4 + 4 * i, 4) && (Read32(data, 4 + 4 * i) == 0 || Read32(data, 4 + 4 * i) < fileSize)
  }

  /** The file index at `pos` is that of a file that has not been deleted; the indices are counted from one. */
  predicate IndexIsKnown(data: seq<uint8>, pos: nat, fileCount: nat, indexMap: map<nat, nat>)
  {
    Has(data, pos, 2) && 0 < Read16(data, pos) <= fileCount && Read16(data, pos) - 1 in indexMap
  }

  /** Reads the file offsets. Deleted files have a zero offset; the others are numbered anew. */
  method ReadOffsets(fileSize: nat, data: seq<uint8>, fileCount: nat, ghost offsets: seq<nat>)
    returns (ok: bool, fileOffsets: seq<nat>, indexMap: map<nat, nat>)
    requires Has(data, 4, 4 * fileCount)
    ensures ok ==> forall i :: i in indexMap ==> i < fileCount && indexMap[i] < |fileOffsets|
    ensures ok <==> forall i :: 0 <= i < fileCount ==> OffsetIsInside(data, i, fileSize)
    ensures ok ==> forall i :: 0 <= i < |fileOffsets| ==> 0 < fileOffsets[i] < fileSize
    ensures fileCount == |offsets| && At(data, 4, Offsets(offsets)) && OffsetsFit(offsets, fileSize) ==>
      ok && fileOffsets == Present(offsets) && Numbers(offsets, |offsets|, indexMap)
  {
    hide Read32, Offsets, Bytes32, Present;
    ghost var saved := fileCount == |offsets| && At(data, 4, Offsets(offsets)) && OffsetsFit(offsets, fileSize);
    fileOffsets, indexMap := [], map[];
    NothingPresent(offsets);
    for i := 0 to fileCount
      invariant forall k :: k in indexMap ==> k < i && indexMap[k] < |fileOffsets|
      invariant forall k :: 0 <= k < i ==> OffsetIsInside(data, k, fileSize)
      invariant forall k :: 0 <= k < |fileOffsets| ==> 0 < fileOffsets[k] < fileSize
      invariant saved ==> fileOffsets == Present(offsets[..i]) && Numbers(offsets, i, indexMap)
    {
      if saved {
        OffsetAt(data, 4, offsets, i);
        Read32At(data, 4 + 4 * i, offsets[i]);
        PresentUpTo(offsets, i);
      }
      var offset := Read32(data, 4 + 4 * i);
      if offset != 0 {
        if offset >= fileSize {
          assert !OffsetIsInside(data, i, fileSize);
          return false, fileOffsets, indexMap;
        }
        indexMap := indexMap[i := |fileOffsets|];
        fileOffsets := fileOffsets + [offset];
      }
    }
    assert offsets[..|offsets|] == offsets;
    ok := true;
  }

  lemma {:induction false} NothingPresent(offsets: seq<nat>)
    ensures Present(offsets[..0]) == []
  {
  }

  /** Reads the symbols, whose file indices are counted from one. */
  method ReadSymbols(data: seq<uint8>, indices: nat, names: nat, symbolCount: nat, fileCount: nat,
                     indexMap: map<nat, nat>, ghost offsets: seq<nat>, ghost symbols: seq<Symbol>, ghost saved: bool)
    returns (ok: bool, table: map<Name, nat>)
    requires names == indices + 2 * symbolCount && names <= |data|
    requires saved ==>
      symbolCount == |symbols| && At(data, indices, Indices(symbols)) && At(data, names, Names(symbols))
    requires saved ==> fileCount == |offsets| < 0xFFFF && Numbers(offsets, |offsets|, indexMap)
    requires saved ==> forall i :: 0 <= i < |symbols| ==> SymbolFits(offsets, symbols[i])
    ensures ok ==> forall i :: 0 <= i < symbolCount ==> IndexIsKnown(data, indices + 2 * i, fileCount, indexMap)
    ensures forall name :: name in table ==> name != [] && table[name] in indexMap.Values
    ensures saved ==> ok && (forall i :: 0 <= i < |symbols| ==> symbols[i].file < |offsets|)
    ensures saved ==> table == TableOf(Renumbered(offsets, symbols))
  {
    hide Indices, Names, Bytes16, Read16, CString, At, TableOf, ZeroFree, NewIndex, Renumbered;
    table := map[];
    var next: nat := names;
    ghost var r := if saved then Renumbered(offsets, symbols) else [];
    NoSymbols(symbols, r);
    for i := 0 to symbolCount
      invariant next <= |data| + 1
      invariant forall k :: 0 <= k < i ==> IndexIsKnown(data, indices + 2 * k, fileCount, indexMap)
      invariant forall name :: name in table ==> name != [] && table[name] in indexMap.Values
      invariant saved ==> next == names + |Names(symbols[..i])| && table == TableOf(r[..i])
    {
      if saved {
        NextSymbol(data, indices, names, symbols, i);
        RenumberedAt(offsets, symbols, i);
        NextEntry(r, i);
      }
      var name := if next <= |data| then CString(data[next..]) else [];
      if name == [] {
        return false, table;
      }
      var index := Read16(data, indices + 2 * i);
      next := next + |name| + 1;
      if index == 0 || index > fileCount || index - 1 !in indexMap {
        return false, table;
      }
      // A symbol that is there already stays.
      if name !in table {
        table := table[name := indexMap[index - 1]];
      }
    }
    assert r[..|r|] == r;
    ok := true;
  }

  lemma {:induction false} NoSymbols(symbols: seq<Symbol>, r: seq<Symbol>)
    ensures Names(symbols[..0]) == [] && TableOf(r[..0]) == map[]
  {
  }

  lemma {:induction false} NextEntry(r: seq<Symbol>, i: nat)
    requires i < |r|
    ensures TableOf(r[..i + 1]) ==
      if r[i].name in TableOf(r[..i]) then TableOf(r[..i]) else TableOf(r[..i])[r[i].name := r[i].file]
  {
    assert r[..i + 1][..i] == r[..i];
  }

  lemma {:induction false} NextSymbol(data: seq<uint8>, indices: nat, names: nat, symbols: seq<Symbol>, i: nat)
    requires i < |symbols| && At(data, indices, Indices(symbols)) && At(data, names, Names(symbols))
    requires symbols[i].file + 1 < 0x1_0000 && ZeroFree(symbols[i].name)
    ensures var next := names + |Names(symbols[..i])|;
      && next <= |data| && CString(data[next..]) == symbols[i].name
      && Has(data, indices + 2 * i, 2) && Read16(data, indices + 2 * i) == symbols[i].file + 1
      && names + |Names(symbols[..i + 1])| == next + |symbols[i].name| + 1 <= |data|
  {
    hide Indices, Names, CString, Bytes16, Read16;
    IndexAt(data, indices, symbols, i);
    Read16At(data, indices + 2 * i, symbols[i].file + 1);
    NameAt(data, names, symbols, i);
    NameReads(data, names + |Names(symbols[..i])|, symbols[i].name);
  }

  /** Reads a table with any offsets and symbols: deleted files are left out, and of several symbols with the same
      name the first one counts. */
  method ParseSecondarySymbolTable(fileSize: nat, data: seq<uint8>, ghost offsets: seq<nat>, ghost symbols: seq<Symbol>)
    returns (ok: bool, table: map<Name, nat>, fileOffsets: seq<nat>)
    ensures ok ==> forall name :: name in table ==> name != [] && table[name] < |fileOffsets|
    ensures ok ==> forall i :: 0 <= i < |fileOffsets| ==> 0 < fileOffsets[i] < fileSize
    ensures TableFits(offsets, symbols, fileSize) && data == SecondaryTable(offsets, symbols) ==>
      && ok && fileOffsets == Present(offsets)
      && (forall i :: 0 <= i < |symbols| ==> symbols[i].file < |offsets|)
      && table == TableOf(Renumbered(offsets, symbols))
  {
    hide SecondaryTable, Read32, Bytes32, Offsets, Indices, Names, TableOf, Present, ZeroFree;
    table, fileOffsets := map[], [];
    ghost var saved := TableFits(offsets, symbols, fileSize) && data == SecondaryTable(offsets, symbols);
    if saved {
      TableParts(data, offsets, symbols);
      Read32At(data, 0, |offsets|);
      Read32At(data, 4 + 4 * |offsets|, |symbols|);
    }
    if |data| < 4 {
      return false, table, fileOffsets;
    }
    var fileCount := Read32(data, 0);
    if |data| < (fileCount + 2) * 4 {
      return false, table, fileOffsets;
    }
    var symbolCount := Read32(data, 4 + 4 * fileCount);
    var indices := 8 + 4 * fileCount;
    var names := indices + 2 * symbolCount;
    if names > |data| {
      return false, table, fileOffsets;
    }
    var indexMap;
    ok, fileOffsets, indexMap := ReadOffsets(fileSize, data, fileCount, offsets);
    if !ok {
      return;
    }
    ok, table := ReadSymbols(data, indices, names, symbolCount, fileCount, indexMap, offsets, symbols, saved);
  }

  // ----- the order of symbols -----

  /** The order of names: that of their first different bytes. */
  predicate NameLess(a: Name, b: Name)
  {
    if b == [] then false
    else if a == [] then true
    else if a[0] != b[0] then a[0] < b[0]
    else NameLess(a[1..], b[1..])
  }

  /** The order of symbols: by name, or by file and then by name. */
  predicate SymbolLess(a: Symbol, b: Symbol, byFile: bool)
  {
    if byFile && a.file != b.file then a.file < b.file else NameLess(a.name, b.name)
  }

  lemma {:induction false} NameLessTotal(a: Name, b: Name)
    ensures NameLess(a, b) || NameLess(b, a) || a == b
    ensures !(NameLess(a, b) && NameLess(b, a)) && !NameLess(a, a)
  {
    if a != [] && b != [] {
      NameLessTotal(a[1..], b[1..]);
      assert a == [a[0]] + a[1..] && b == [b[0]] + b[1..];
    }
    if a != [] { NameLessTotal(a[1..], a[1..]); }
  }

  lemma {:induction false} NameLessTransitive(a: Name, b: Name, c: Name)
    requires NameLess(a, b) && NameLess(b, c)
    ensures NameLess(a, c)
  {
    if a != [] && a[0] == b[0] == c[0] {
      NameLessTransitive(a[1..], b[1..], c[1..]);
    }
  }

  predicate AtMost(a: Symbol, b: Symbol, byFile: bool) { a == b || SymbolLess(a, b, byFile) }

  /** No two symbols have the same name. */
  predicate DistinctNames(s: set<Symbol>) { forall a, b :: a in s && b in s && a.name == b.name ==> a == b }

  lemma {:induction false} AtMostTransitive(a: Symbol, b: Symbol, c: Symbol, byFile: bool)
    requires AtMost(a, b, byFile) && AtMost(b, c, byFile)
    ensures AtMost(a, c, byFile)
  {
    hide NameLess;
    if NameLess(a.name, b.name) && NameLess(b.name, c.name) {
      NameLessTransitive(a.name, b.name, c.name);
    }
  }

  method LeastSymbol(s: set<Symbol>, byFile: bool) returns (m: Symbol)
    requires s != {} && DistinctNames(s)
    ensures m in s && forall x :: x in s ==> AtMost(m, x, byFile)
  {
    hide NameLess;
    m := Pick(s);
    var todo := s - {m};
    while todo != {}
      invariant todo <= s && m in s
      invariant forall x :: x in s && x !in todo ==> AtMost(m, x, byFile)
      decreases |todo|
    {
      var x := Pick(todo);
      NameLessTotal(x.name, m.name);
      if SymbolLess(x, m, byFile) {
        forall y | y in s && y !in todo ensures AtMost(x, y, byFile) { AtMostTransitive(x, m, y, byFile); }
        m := x;
      }
      todo := todo - {x};
    }
  }

  predicate Sorted(symbols: seq<Symbol>, byFile: bool)
  {
    forall i, j :: 0 <= i < j < |symbols| ==> SymbolLess(symbols[i], symbols[j], byFile)
  }

  /** The symbols in order. */
  method SortSymbols(s: set<Symbol>, byFile: bool) returns (symbols: seq<Symbol>)
    requires DistinctNames(s)
    ensures Sorted(symbols, byFile) && |symbols| == |s| && forall x :: x in symbols <==> x in s
  {
    hide SymbolLess;
    symbols := [];
    var todo := s;
    while todo != {}
      invariant todo <= s && Sorted(symbols, byFile) && |symbols| + |todo| == |s|
      invariant forall x :: x in s <==> x in symbols || x in todo
      invariant forall x, y :: x in symbols && y in todo ==> SymbolLess(x, y, byFile)
      decreases |todo|
    {
      var m := LeastSymbol(todo, byFile);
      assert forall i :: 0 <= i < |symbols| ==> symbols[i] in symbols;
      symbols := symbols + [m];
      todo := todo - {m};
    }
  }

  /** The symbols of a map, in order. */
  method ListSymbols(table: map<Name, nat>, byFile: bool) returns (symbols: seq<Symbol>)
    ensures Lists(symbols, table) && Sorted(symbols, byFile)
  {
    hide NameLess;
    var s: set<Symbol> := {};
    var todo := table.Keys;
    while todo != {}
      invariant todo <= table.Keys && |s| + |todo| == |table.Keys|
      invariant forall x :: x in s <==> x.name in table && x.name !in todo && x.file == table[x.name]
      decreases |todo|
    {
      var name := Pick(todo);
      s := s + {Symbol(name, table[name])};
      todo := todo - {name};
    }
    symbols := SortSymbols(s, byFile);
    SortedIsListing(symbols, s, table, byFile);
  }

  lemma {:induction false} SortedIsListing(symbols: seq<Symbol>, s: set<Symbol>, table: map<Name, nat>, byFile: bool)
    requires Sorted(symbols, byFile) && |symbols| == |s| == |table| && forall x :: x in symbols <==> x in s
    requires forall x :: x in s <==> x.name in table && x.file == table[x.name]
    ensures Lists(symbols, table)
  {
    hide NameLess;
    forall i | 0 <= i < |symbols| ensures symbols[i].name in table && table[symbols[i].name] == symbols[i].file {
      assert symbols[i] in symbols;
    }
    forall i, j | 0 <= i < j < |symbols| ensures symbols[i].name != symbols[j].name {
      assert SymbolLess(symbols[i], symbols[j], byFile);
      NameLessTotal(symbols[i].name, symbols[j].name);
    }
  }

  // ----- writing -----

  method SecondaryContents(offsets: seq<nat>, symbols: seq<Symbol>) returns (buffer: seq<uint8>)
    ensures buffer == SecondaryTable(offsets, symbols)
  {
    hide Bytes32, Bytes16, Names;
    buffer := Bytes32(|offsets|);
    for i := 0 to |offsets|
      invariant buffer == Bytes32(|offsets|) + Offsets(offsets[..i])
    {
      assert offsets[..i + 1][..i] == offsets[..i];
      buffer := buffer + Bytes32(offsets[i]);
    }
    assert offsets[..|offsets|] == offsets;
    buffer := buffer + Bytes32(|symbols|);
    ghost var head := buffer;
    for i := 0 to |symbols|
      invariant buffer == head + Indices(symbols[..i])
    {
      assert symbols[..i + 1][..i] == symbols[..i];
      // Indices count from one.
      buffer := buffer + Bytes16(symbols[i].file + 1);
    }
    assert symbols[..|symbols|] == symbols;
    buffer := AppendNames(buffer, symbols);
    Regroup(Bytes32(|offsets|), Offsets(offsets), Bytes32(|symbols|), Indices(symbols), Names(symbols));
  }

  lemma {:induction false} Regroup(a: seq<uint8>, b: seq<uint8>, c: seq<uint8>, d: seq<uint8>, e: seq<uint8>)
    ensures a + b + c + d + e == a + (b + (c + (d + e)))
  {
  }

  method AppendNames(head: seq<uint8>, symbols: seq<Symbol>) returns (buffer: seq<uint8>)
    ensures buffer == head + Names(symbols)
  {
    buffer := head;
    for i := 0 to |symbols|
      invariant buffer == head + Names(symbols[..i])
    {
      assert symbols[..i + 1][..i] == symbols[..i];
      buffer := buffer + (symbols[i].name + [0]);
    }
    assert symbols[..|symbols|] == symbols;
  }

  method PrimaryContents(offsets: seq<nat>, symbols: seq<Symbol>) returns (buffer: seq<uint8>)
    requires forall i :: 0 <= i < |symbols| ==> symbols[i].file < |offsets|
    ensures buffer == PrimaryTable(offsets, symbols)
  {
    hide BigEndian32, Names;
    buffer := BigEndian32(|symbols|);
    for i := 0 to |symbols|
      invariant buffer == BigEndian32(|symbols|) + SymbolOffsets(offsets, symbols[..i])
    {
      assert symbols[..i + 1][..i] == symbols[..i];
      buffer := buffer + BigEndian32(offsets[symbols[i].file]);
    }
    assert symbols[..|symbols|] == symbols;
    buffer := AppendNames(buffer, symbols);
  }
}
