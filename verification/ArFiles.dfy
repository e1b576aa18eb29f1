/** Archives of object files: the writer, and the reader that gives back what was written. */
module ArFiles {
  import opened Types
  import opened ByteStrings
  import opened ArSymbols
  import opened ArHeaders
  import opened ArTables

  const GLOBAL_MAGIC: seq<uint8> := [0x21, 0x3C, 0x61, 0x72, 0x63, 0x68, 0x3E, 0x0A]

  /** A file with its full name; the size in its header is that of its contents. */
  datatype File = File(header: Header, contents: seq<uint8>)

  // ----- the layout of an archive -----

  function Aligned(n: nat): nat { n + n % 2 }

  function Pad(n: nat): seq<uint8> { if n % 2 == 1 then [0] else [] }

  function Member(h: Header, contents: seq<uint8>): (b: seq<uint8>)
    requires Fits(h)
    ensures |b| == HEADER_SIZE + |contents|
  {
    HeaderBytes(h) + contents
  }

  /** The name table of the first `i` files. */
  function NameTable(files: seq<File>, i: nat): seq<uint8>
    requires i <= |files|
  {
    if i == 0 then [] else NameTable(files, i - 1) + TableEntry(files[i - 1].header.name)
  }

  /** The header of a file as it is in the archive. */
  function RawHeader(files: seq<File>, i: nat): Header
    requires i < |files|
  {
    files[i].header.(name := InternalName(files[i].header.name, |NameTable(files, i)|))
  }

  predicate AllFit(files: seq<File>) { forall i :: 0 <= i < |files| ==> Fits(RawHeader(files, i)) }

  /** The first `i` files, from an even position on. */
  function FileBytes(files: seq<File>, i: nat): seq<uint8>
    requires i <= |files| && AllFit(files)
  {
    if i == 0 then []
    else
      var before := FileBytes(files, i - 1);
      before + Pad(|before|) + Member(RawHeader(files, i - 1), files[i - 1].contents)
  }

  /** Where file `i` is, when the files start at an even position. */
  function FileOffset(files: seq<File>, start: nat, i: nat): nat
    requires i < |files| && AllFit(files)
  {
    start + Aligned(|FileBytes(files, i)|)
  }

  function FileOffsets(files: seq<File>, start: nat): (offsets: seq<nat>)
    requires AllFit(files)
    ensures |offsets| == |files|
  {
    seq(|files|, i requires 0 <= i < |files| => FileOffset(files, start, i))
  }

  function TableHeader(name: Name, now: nat, size: nat): Header { Header(name, now, 0, size) }

  /** The symbol tables and the name table, each at an even position. */
  function Tables(primary: seq<uint8>, secondary: seq<uint8>, names: seq<uint8>, now: nat): seq<uint8>
    requires TablesFit(|primary|, |secondary|, |names|, now)
  {
    Member(TableHeader([SLASH], now, |primary|), primary) + (Pad(|primary|) +
      (Member(TableHeader([SLASH], now, |secondary|), secondary) + (Pad(|secondary|) +
        (Member(TableHeader([SLASH, SLASH], now, |names|), names) + Pad(|names|)))))
  }

  /** Where the files start. */
  function FilesStart(primary: nat, secondary: nat, names: nat): nat
  {
    |GLOBAL_MAGIC| + 3 * HEADER_SIZE + Aligned(primary) + Aligned(secondary) + Aligned(names)
  }

  predicate TablesFit(primary: nat, secondary: nat, names: nat, now: nat)
  {
    && Fits(TableHeader([SLASH], now, primary)) && Fits(TableHeader([SLASH], now, secondary))
    && Fits(TableHeader([SLASH, SLASH], now, names))
  }

  /** A whole archive: the symbols are listed by file in the first table, and by name in the second one. */
  function Archive(files: seq<File>, byFile: seq<Symbol>, byName: seq<Symbol>, offsets: seq<nat>, now: nat): seq<uint8>
    requires AllFit(files)
    requires TablesFit(|PrimaryTable(offsets, byFile)|, |SecondaryTable(offsets, byName)|,
                       |NameTable(files, |files|)|, now)
  {
    GLOBAL_MAGIC +
      (Tables(PrimaryTable(offsets, byFile), SecondaryTable(offsets, byName), NameTable(files, |files|), now) +
       FileBytes(files, |files|))
  }

  lemma {:induction false} EvenSum(a: nat, b: nat)
    requires a % 2 == 0
    ensures Pad(a + b) == Pad(b) && Aligned(a + b) == a + Aligned(b)
  {
  }

  lemma {:induction false} AlignedEven(n: nat)
    ensures Aligned(n) % 2 == 0 && |Pad(n)| + n == Aligned(n)
  {
  }

  lemma {:induction false} FilesStartEven(primary: nat, secondary: nat, names: nat)
    ensures FilesStart(primary, secondary, names) % 2 == 0
  {
    AlignedEven(primary);
    AlignedEven(secondary);
    AlignedEven(names);
  }

  lemma {:induction false} TablesLength(primary: seq<uint8>, secondary: seq<uint8>, names: seq<uint8>, now: nat)
    requires TablesFit(|primary|, |secondary|, |names|, now)
    ensures |GLOBAL_MAGIC| + |Tables(primary, secondary, names, now)| == FilesStart(|primary|, |secondary|, |names|)
  {
    hide Member, Fits;
    AlignedEven(|primary|);
    AlignedEven(|secondary|);
    AlignedEven(|names|);
  }

  lemma {:induction false} FileBytesStep(files: seq<File>, i: nat)
    requires i < |files| && AllFit(files)
    ensures FileBytes(files, i + 1) == FileBytes(files, i) + Pad(|FileBytes(files, i)|)
              + Member(RawHeader(files, i), files[i].contents)
  {
  }

  /** Every file is where its offset says. */
  lemma {:induction false} FileAt(data: seq<uint8>, start: nat, files: seq<File>, n: nat, i: nat)
    requires i < n <= |files| && AllFit(files) && At(data, start, FileBytes(files, n))
    ensures At(data, FileOffset(files, start, i), Member(RawHeader(files, i), files[i].contents))
    ensures FileOffset(files, start, i) + HEADER_SIZE + |files[i].contents| <= start + |FileBytes(files, n)|
    decreases n
  {
    hide Member, At, FileBytes, RawHeader, Aligned, Pad;
    var before, m := FileBytes(files, n - 1), Member(RawHeader(files, n - 1), files[n - 1].contents);
    FileBytesStep(files, n - 1);
    AlignedEven(|before|);
    AtConcat(data, start, before + Pad(|before|), m);
    AtConcat(data, start, before, Pad(|before|));
    if i < n - 1 {
      FileAt(data, start, files, n - 1, i);
    }
  }

  /** The next file starts where this one, with its padding, ends. */
  lemma {:induction false} NextOffset(files: seq<File>, start: nat, i: nat)
    requires i + 1 < |files| && AllFit(files)
    ensures FileOffset(files, start, i + 1)
      == FileOffset(files, start, i) + HEADER_SIZE + Aligned(|files[i].contents|)
  {
    hide Member;
    var before := |FileBytes(files, i)|;
    FileBytesStep(files, i);
    AlignedEven(before);
    EvenSum(Aligned(before) + HEADER_SIZE, |files[i].contents|);
  }

  lemma {:induction false} OffsetsAscend(files: seq<File>, start: nat, i: nat, j: nat)
    requires i < j < |files| && AllFit(files)
    ensures FileOffset(files, start, i) < FileOffset(files, start, j)
  {
    hide FileOffset, Aligned;
    NextOffset(files, start, j - 1);
    AlignedEven(|files[j - 1].contents|);
    if i < j - 1 { OffsetsAscend(files, start, i, j - 1); }
  }

  // ----- overwriting -----

  function Overwritten(image: seq<uint8>, pos: nat, data: seq<uint8>): seq<uint8>
    requires pos + |data| <= |image|
  {
    image[..pos] + data + image[pos + |data|..]
  }

  lemma {:induction false} OverwrittenPart(a: seq<uint8>, x: seq<uint8>, y: seq<uint8>, b: seq<uint8>)
    requires |x| == |y|
    ensures Overwritten(a + (x + b), |a|, y) == a + (y + b)
  {
  }

  lemma {:induction false} RewritePrimary(image: seq<uint8>, was: seq<uint8>, primary: seq<uint8>,
                                          secondary: seq<uint8>, names: seq<uint8>, now: nat, rest: seq<uint8>)
    requires |was| == |primary| && TablesFit(|was|, |secondary|, |names|, now)
    requires image == GLOBAL_MAGIC + (Tables(was, secondary, names, now) + rest)
    ensures var m := Member(TableHeader([SLASH], now, |primary|), primary);
      && |GLOBAL_MAGIC| + |m| <= |image|
      && Overwritten(image, |GLOBAL_MAGIC|, m) == GLOBAL_MAGIC + (Tables(primary, secondary, names, now) + rest)
  {
    hide Member, Fits, Overwritten, Pad;
    var x, m := Member(TableHeader([SLASH], now, |was|), was), Member(TableHeader([SLASH], now, |primary|), primary);
    var tail := Pad(|was|) + (Member(TableHeader([SLASH], now, |secondary|), secondary) + (Pad(|secondary|) +
      (Member(TableHeader([SLASH, SLASH], now, |names|), names) + Pad(|names|))));
    assert (x + tail) + rest == x + (tail + rest);
    OverwrittenPart(GLOBAL_MAGIC, x, m, tail + rest);
    assert (m + tail) + rest == m + (tail + rest);
  }

  lemma {:induction false} RewriteSecondary(image: seq<uint8>, primary: seq<uint8>, was: seq<uint8>,
                                            secondary: seq<uint8>, names: seq<uint8>, now: nat, rest: seq<uint8>)
    requires |was| == |secondary| && TablesFit(|primary|, |was|, |names|, now)
    requires image == GLOBAL_MAGIC + (Tables(primary, was, names, now) + rest)
    ensures var m, pos := Member(TableHeader([SLASH], now, |secondary|), secondary),
                          |GLOBAL_MAGIC| + HEADER_SIZE + Aligned(|primary|);
      && pos + |m| <= |image|
      && Overwritten(image, pos, m) == GLOBAL_MAGIC + (Tables(primary, secondary, names, now) + rest)
  {
    hide Member, Fits, Overwritten, Pad, Aligned;
    var first, x, m := Member(TableHeader([SLASH], now, |primary|), primary),
                       Member(TableHeader([SLASH], now, |was|), was),
                       Member(TableHeader([SLASH], now, |secondary|), secondary);
    var tail := Pad(|was|) + (Member(TableHeader([SLASH, SLASH], now, |names|), names) + Pad(|names|));
    var head := GLOBAL_MAGIC + first + Pad(|primary|);
    AlignedEven(|primary|);
    Regrouped(GLOBAL_MAGIC, first, Pad(|primary|), x, tail, rest);
    OverwrittenPart(head, x, m, tail + rest);
    Regrouped(GLOBAL_MAGIC, first, Pad(|primary|), m, tail, rest);
  }

  lemma {:induction false} Regrouped(a: seq<uint8>, b: seq<uint8>, c: seq<uint8>, x: seq<uint8>, d: seq<uint8>,
                                     e: seq<uint8>)
    ensures a + ((b + (c + (x + d))) + e) == (a + b + c) + (x + (d + e))
  {
  }

  // ----- the writer -----

  /** Aligns the position in the file. */
  method AlignAndGetPosition(image: seq<uint8>) returns (aligned: seq<uint8>, pos: nat)
    ensures aligned == image + Pad(|image|) && pos == |aligned| == Aligned(|image|)
  {
    aligned := image;
    pos := Aligned(|image|);
    for i := 0 to pos - |image|
      invariant aligned == image + seq(i, _ => 0)
    {
      aligned := aligned + [0];
    }
  }

  /** A header and contents, if the header fits. */
  method WriteMember(h: Header, contents: seq<uint8>) returns (ok: bool, bytes: seq<uint8>)
    ensures ok <==> Fits(h)
    ensures ok ==> bytes == Member(h, contents)
  {
    hide Fits, HeaderBytes;
    var raw := new uint8[HEADER_SIZE];
    ok := PopulateArFileHeader(h, raw);
    bytes := [];
    if ok {
      bytes := raw[..] + contents;
    }
  }

  /** The symbols that a file defines. */
  function DefinitionsOf(file: nat, symbols: seq<(Name, bool)>): (defs: seq<Definition>)
    ensures |defs| == |symbols|
  {
    seq(|symbols|, i requires 0 <= i < |symbols| => Definition(file, symbols[i].0, symbols[i].1))
  }

  class ArWriter {
    var files: seq<File>
    var fileIndexMap: set<(Name, nat)>
    var table: SymbolTable

    ghost predicate Valid()
      reads this, table
    {
      && table.Valid() && DefinedBy(table.history, |files|)
      && forall i :: 0 <= i < |files| ==> files[i].header.size == |files[i].contents| > 0
    }

    constructor ()
      ensures Valid() && files == [] && table.history == [] && fresh(table)
    {
      files, fileIndexMap := [], {};
      table := new SymbolTable();
    }

    /** Adds a file. Its symbols are those that are extracted from its contents, if that succeeds. */
    method AddFile(name: Name, timestamp: nat, mode: nat, contents: seq<uint8>, symbols: Option<seq<(Name, bool)>>)
      returns (ok: bool)
      requires Valid() && (contents != [] ==> (name, |files|) !in fileIndexMap)
      modifies this
      ensures Valid() && (ok <==> contents != [] && symbols.Some?)
      ensures ok ==> files == old(files) + [File(Header(name, timestamp, mode, |contents|), contents)]
      ensures ok ==> fresh(table) && table.history == old(table.history) + DefinitionsOf(|old(files)|, symbols.value)
      ensures !ok ==> files == old(files) && table == old(table)
    {
      if contents == [] {
        return false;
      }
      fileIndexMap := fileIndexMap + {(name, |files|)};
      // Definitions go into a copy, which replaces the table only on success.
      var copy := new SymbolTable.Copy(table);
      if symbols.None? {
        return false;
      }
      ghost var defs := DefinitionsOf(|files|, symbols.value);
      for i := 0 to |symbols.value|
        invariant copy.Valid() && copy.history == table.history + defs[..i] && unchanged(this`files, this`table)
      {
        var (symbol, isWeak) := symbols.value[i];
        var duplicate := copy.UpdateSymbolTable(|files|, symbol, isWeak);
      }
      table := copy;
      files := files + [File(Header(name, timestamp, mode, |contents|), contents)];
      ok := true;
    }

    /** Fills in the headers, and collects long names in a name table. */
    method TranslateHeaders() returns (ok: bool, headers: seq<seq<uint8>>, names: seq<uint8>)
      ensures ok <==> AllFit(files)
      ensures ok ==> names == NameTable(files, |files|) && |headers| == |files|
      ensures ok ==> forall i :: 0 <= i < |files| ==> headers[i] == HeaderBytes(RawHeader(files, i))
    {
      hide Fits, HeaderBytes;
      headers, names := [], [];
      for i := 0 to |files|
        invariant names == NameTable(files, i) && |headers| == i
        invariant forall k :: 0 <= k < i ==>
          Fits(RawHeader(files, k)) && headers[k] == HeaderBytes(RawHeader(files, k))
      {
        var header := files[i].header;
        if |header.name| >= NAME_SIZE {
          header := header.(name := [SLASH] + Digits(|names|));
          names := names + (files[i].header.name + [0]);
        } else {
          header := header.(name := header.name + [SLASH]);
        }
        assert header == RawHeader(files, i);
        var raw := new uint8[HEADER_SIZE];
        var fits := PopulateArFileHeader(header, raw);
        if !fits {
          return false, headers, names;
        }
        headers := headers + [raw[..]];
      }
      ok := true;
    }

    /** Writes the tables, with dummy offsets for now, and returns where they are. */
    method WriteTables(primary: seq<uint8>, secondary: seq<uint8>, names: seq<uint8>, now: nat)
      returns (ok: bool, image: seq<uint8>, pos1: nat, pos2: nat)
      ensures ok <==> TablesFit(|primary|, |secondary|, |names|, now)
      ensures ok ==> image + Pad(|image|) == GLOBAL_MAGIC + Tables(primary, secondary, names, now)
      ensures ok ==> pos1 == |GLOBAL_MAGIC| && pos2 == |GLOBAL_MAGIC| + HEADER_SIZE + Aligned(|primary|)
    {
      hide Fits, Member, Aligned, Pad;
      var member;
      image, pos1 := AlignAndGetPosition(GLOBAL_MAGIC);
      EvenSum(0, |GLOBAL_MAGIC|);
      EvenStart();
      pos2 := 0;
      ok, member := WriteMember(TableHeader([SLASH], now, |primary|), primary);
      if !ok { return; }
      ghost var m1 := member;
      image := image + member;
      EvenSum(|GLOBAL_MAGIC| + HEADER_SIZE, |primary|);
      image, pos2 := AlignAndGetPosition(image);
      ok, member := WriteMember(TableHeader([SLASH], now, |secondary|), secondary);
      if !ok { return; }
      ghost var m2 := member;
      image := image + member;
      AlignedEven(|primary|);
      EvenSum(pos2 + HEADER_SIZE, |secondary|);
      var pos3;
      image, pos3 := AlignAndGetPosition(image);
      ok, member := WriteMember(TableHeader([SLASH, SLASH], now, |names|), names);
      if !ok { return; }
      image := image + member;
      AlignedEven(|secondary|);
      EvenSum(pos3 + HEADER_SIZE, |names|);
      InARow(GLOBAL_MAGIC, m1, Pad(|primary|), m2, Pad(|secondary|), member, Pad(|names|));
    }

    /** Writes the files behind the tables, keeping track of their offsets. */
    method WriteFiles(tables: seq<uint8>, headers: seq<seq<uint8>>, ghost front: seq<uint8>)
      returns (image: seq<uint8>, offsets: seq<nat>)
      requires AllFit(files) && files != [] && |headers| == |files|
      requires forall i :: 0 <= i < |files| ==> headers[i] == HeaderBytes(RawHeader(files, i))
      requires tables + Pad(|tables|) == front && |front| % 2 == 0
      ensures image == front + FileBytes(files, |files|) && offsets == FileOffsets(files, |front|)
    {
      hide Fits, HeaderBytes, Pad, Aligned, FileBytes, RawHeader;
      image, offsets := tables, [];
      NoFiles(files, front);
      for i := 0 to |files|
        invariant |offsets| == i && forall k :: 0 <= k < i ==> offsets[k] == FileOffset(files, |front|, k)
        invariant image + Pad(|image|) == front + (FileBytes(files, i) + Pad(|FileBytes(files, i)|))
        invariant i > 0 ==> image == front + FileBytes(files, i)
      {
        var pos;
        ghost var before := FileBytes(files, i);
        image, pos := AlignAndGetPosition(image);
        AlignedEven(|before|);
        offsets := offsets + [pos];
        image := image + (headers[i] + files[i].contents);
        FileBytesStep(files, i);
        assert image == front + FileBytes(files, i + 1);
        EvenSum(|front|, |FileBytes(files, i + 1)|);
      }
    }

    /** Writes an archive. The symbol tables are written with dummy offsets first, and again when the files have
        been laid out. */
    method Write(now: nat) returns (ok: bool, image: seq<uint8>, ghost byFile: seq<Symbol>, ghost byName: seq<Symbol>)
      requires Valid()
      ensures Lists(byFile, table.symbols) && Sorted(byFile, true) && Lists(byName, table.symbols)
      ensures Sorted(byName, false)
      ensures ok <==> Writable(files, byFile, byName, now)
      ensures ok ==> image == Written(files, byFile, byName, now)
    {
      hide AllFit, TablesFit, PrimaryTable, SecondaryTable, NameTable, Lists, Sorted, Tables, FileBytes, FileOffsets,
        FilesStart, Pad, Member, Overwritten, TablesOf, HeaderBytes, RawHeader;
      image := [];
      var symbols1 := ListSymbols(table.symbols, true);
      var symbols2 := ListSymbols(table.symbols, false);
      byFile, byName := symbols1, symbols2;
      if files == [] {
        return false, image, byFile, byName;
      }
      var headers, names;
      ok, headers, names := TranslateHeaders();
      if !ok { return; }
      var offsets := seq(|files|, _ => 0);
      SymbolsHaveFiles(table.history, table.symbols, table.weakSymbols, |files|, symbols1);
      var primary := PrimaryContents(offsets, symbols1);
      var secondary := SecondaryContents(offsets, symbols2);
      ghost var primary0, secondary0 := primary, secondary;
      var pos1, pos2;
      ok, image, pos1, pos2 := WriteTables(primary, secondary, names, now);
      if !ok { return; }
      TablesLength(primary, secondary, names, now);
      FilesStartEven(|primary|, |secondary|, |names|);
      image, offsets := WriteFiles(image, headers, GLOBAL_MAGIC + Tables(primary, secondary, names, now));
      // Both tables were written with zero offsets and are overwritten in place.
      TableLengths(seq(|files|, _ => 0), offsets, symbols1);
      TableLengths(seq(|files|, _ => 0), offsets, symbols2);
      var member;
      ghost var rest := FileBytes(files, |files|);
      Grouped(GLOBAL_MAGIC, Tables(primary0, secondary0, names, now), rest);
      primary := PrimaryContents(offsets, symbols1);
      ok, member := WriteMember(TableHeader([SLASH], now, |primary|), primary);
      FitParts(|primary|, |secondary|, |names|, now);
      RewritePrimary(image, primary0, primary, secondary0, names, now, rest);
      image := Overwritten(image, pos1, member);
      secondary := SecondaryContents(offsets, symbols2);
      ok, member := WriteMember(TableHeader([SLASH], now, |secondary|), secondary);
      RewriteSecondary(image, primary, secondary0, secondary, names, now, rest);
      image := Overwritten(image, pos2, member);
    }
  }

  /** The archive can be written: there are files, and everything fits the fields of its header. */
  predicate Writable(files: seq<File>, byFile: seq<Symbol>, byName: seq<Symbol>, now: nat)
  {
    && files != [] && AllFit(files)
    && var zeros := seq(|files|, _ => 0);
       TablesFit(|PrimaryTable(zeros, byFile)|, |SecondaryTable(zeros, byName)|, |NameTable(files, |files|)|, now)
  }

  /** What is written: an archive whose tables have the offsets at which its files are. */
  function Written(files: seq<File>, byFile: seq<Symbol>, byName: seq<Symbol>, now: nat): seq<uint8>
    requires Writable(files, byFile, byName, now)
  {
    var offsets := WrittenOffsets(files, byFile, byName);
    TableLengths(seq(|files|, _ => 0), offsets, byFile);
    TableLengths(seq(|files|, _ => 0), offsets, byName);
    Archive(files, byFile, byName, offsets, now)
  }

  function WrittenOffsets(files: seq<File>, byFile: seq<Symbol>, byName: seq<Symbol>): (offsets: seq<nat>)
    requires AllFit(files)
    ensures |offsets| == |files|
  {
    var zeros := seq(|files|, _ => 0);
    FileOffsets(files, FilesStart(|PrimaryTable(zeros, byFile)|, |SecondaryTable(zeros, byName)|,
                                  |NameTable(files, |files|)|))
  }

  lemma {:induction false} FitParts(primary: nat, secondary: nat, names: nat, now: nat)
    requires TablesFit(primary, secondary, names, now)
    ensures Fits(TableHeader([SLASH], now, primary)) && Fits(TableHeader([SLASH], now, secondary))
  {
  }

  lemma {:induction false} Grouped(a: seq<uint8>, b: seq<uint8>, c: seq<uint8>)
    ensures (a + b) + c == a + (b + c)
  {
  }

  lemma {:induction false} NoFiles(files: seq<File>, front: seq<uint8>)
    requires AllFit(files)
    ensures FileBytes(files, 0) == [] && front + (FileBytes(files, 0) + Pad(|FileBytes(files, 0)|)) == front
  {
  }

  lemma {:induction false} SymbolsHaveFiles(defs: seq<Definition>, symbols: map<Name, nat>, weakSymbols: map<Name, nat>,
                                            n: nat, listed: seq<Symbol>)
    requires TablesOf(defs, symbols, weakSymbols) && DefinedBy(defs, n) && Lists(listed, symbols)
    ensures forall i :: 0 <= i < |listed| ==> listed[i].file < n
  {
    hide TablesOf;
    forall i | 0 <= i < |listed| ensures listed[i].file < n {
      SymbolsAreDefined(defs, symbols, weakSymbols, n, listed[i].name);
    }
  }

  lemma {:induction false} EvenStart()
    ensures Pad(|GLOBAL_MAGIC|) == [] && Aligned(|GLOBAL_MAGIC|) == |GLOBAL_MAGIC|
  {
  }

  lemma {:induction false} InARow(a: seq<uint8>, b: seq<uint8>, c: seq<uint8>, d: seq<uint8>, e: seq<uint8>,
                                  f: seq<uint8>, g: seq<uint8>)
    ensures a + b + c + d + e + f + g == a + (b + (c + (d + (e + (f + g)))))
  {
  }
}
