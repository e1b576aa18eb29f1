/** Reading archives, and what is read from an archive that was written. */
module ArReaders {
  import opened Types
  import opened ByteStrings
  import opened ArSymbols
  import opened ArHeaders
  import opened ArTables
  import opened ArFiles

  // ----- headers and names that are read back -----

  predicate ParsesBack(h: Header) { Fits(h) && ParsedHeader(HeaderBytes(h)) == Some(h) }

  /** A file that can be read back: its mode is not printed as a negative number, and its name has no zeros and,
      if it is short, is neither empty nor starts with a slash. */
  predicate FileReadable(f: File)
  {
    && f.header.size == |f.contents| && f.header.mode < 0x8000_0000 && ZeroFree(f.header.name)
    && (|f.header.name| < NAME_SIZE ==> f.header.name != [] && f.header.name[0] != SLASH)
  }

  lemma {:induction false} InternalNameEnds(name: Name, table: nat)
    ensures InternalName(name, table) != []
    ensures InternalName(name, table)[|InternalName(name, table)| - 1] != SPACE
  {
    hide Digits;
    if |name| >= NAME_SIZE {
      var d := Digits(table);
      assert IsDigit(d[|d| - 1]);
      assert InternalName(name, table)[|InternalName(name, table)| - 1] == d[|d| - 1];
    }
  }

  lemma {:induction false} RawHeaderParses(files: seq<File>, i: nat)
    requires i < |files| && Fits(RawHeader(files, i)) && FileReadable(files[i])
    ensures ParsesBack(RawHeader(files, i))
  {
    hide HeaderBytes, ParsedHeader, Fits, NameTable, InternalName;
    InternalNameEnds(files[i].header.name, |NameTable(files, i)|);
    HeaderParsesIff(RawHeader(files, i));
  }

  lemma {:induction false} TableHeaderParses(name: Name, now: nat, size: nat)
    requires name in {[SLASH], [SLASH, SLASH]} && Fits(TableHeader(name, now, size))
    ensures ParsesBack(TableHeader(name, now, size))
  {
    hide HeaderBytes, ParsedHeader, Fits;
    HeaderParsesIff(TableHeader(name, now, size));
  }

  lemma {:induction false} JoinSequences(a: seq<uint8>, b: seq<uint8>, c: seq<uint8>)
    ensures a + b + c == a + (b + c)
  {
  }

  lemma {:induction false} NameTableGrows(files: seq<File>, i: nat, n: nat) returns (after: seq<uint8>)
    requires i <= n <= |files|
    ensures NameTable(files, n) == NameTable(files, i) + after
  {
    if i == n {
      after := [];
    } else {
      hide TableEntry;
      var before := NameTableGrows(files, i, n - 1);
      var entry := TableEntry(files[n - 1].header.name);
      after := before + entry;
      JoinSequences(NameTable(files, i), before, entry);
    }
  }

  /** The name in the header of a file leads to its full name. */
  lemma {:induction false} NameTranslates(files: seq<File>, i: nat)
    requires i < |files| && FileReadable(files[i]) && |NameTable(files, |files|)| < TWO_32
    ensures TranslatedName(RawHeader(files, i).name, NameTable(files, |files|)) == Some(files[i].header.name)
  {
    hide TranslatedName, TableEntry, InternalName;
    var name, table := files[i].header.name, NameTable(files, i);
    if |name| < NAME_SIZE {
      ShortNameTranslatesIff(name, |table|, NameTable(files, |files|));
    } else {
      var after := NameTableGrows(files, i + 1, |files|);
      LongNameTranslates(name, table, after);
    }
  }

  // ----- members -----

  /** The header at an offset, if there is one that can be parsed. */
  function HeaderAt(file: seq<uint8>, o: nat): Option<Header>
  {
    if o + HEADER_SIZE <= |file| then ParsedHeader(file[o..o + HEADER_SIZE]) else None
  }

  /** The member at an offset: the header and as many bytes as it speaks of, if they are there. */
  function MemberAt(file: seq<uint8>, o: nat): Option<File>
  {
    var h, p := HeaderAt(file, o), o + HEADER_SIZE;
    if h.Some? && p + h.value.size <= |file| then Some(File(h.value, file[p..p + h.value.size])) else None
  }

  /** A member that was written is read. */
  lemma {:induction false} MemberReads(file: seq<uint8>, o: nat, h: Header, contents: seq<uint8>)
    requires ParsesBack(h) && h.size == |contents| && At(file, o, Member(h, contents))
    ensures HeaderAt(file, o) == Some(h) && MemberAt(file, o) == Some(File(h, contents))
  {
    hide HeaderBytes, ParsedHeader, Fits;
    AtConcat(file, o, HeaderBytes(h), contents);
  }

  // ----- the parts of an archive -----

  /** The members of an archive are where the reader looks for them. */
  lemma {:induction false} ArchiveParts(file: seq<uint8>, primary: seq<uint8>, secondary: seq<uint8>, names: seq<uint8>,
                                        now: nat, rest: seq<uint8>)
    requires TablesFit(|primary|, |secondary|, |names|, now)
    requires file == GLOBAL_MAGIC + (Tables(primary, secondary, names, now) + rest)
    ensures var p1 := |GLOBAL_MAGIC|;
      var p2 := p1 + HEADER_SIZE + Aligned(|primary|);
      var p3 := p2 + HEADER_SIZE + Aligned(|secondary|);
      && At(file, 0, GLOBAL_MAGIC)
      && At(file, p1, Member(TableHeader([SLASH], now, |primary|), primary))
      && At(file, p2, Member(TableHeader([SLASH], now, |secondary|), secondary))
      && At(file, p3, Member(TableHeader([SLASH, SLASH], now, |names|), names))
      && At(file, FilesStart(|primary|, |secondary|, |names|), rest)
      && FilesStart(|primary|, |secondary|, |names|) == p3 + HEADER_SIZE + Aligned(|names|)
  {
    hide Member, Fits, Aligned, Pad, At;
    var m1, m2, m3 := Member(TableHeader([SLASH], now, |primary|), primary),
                      Member(TableHeader([SLASH], now, |secondary|), secondary),
                      Member(TableHeader([SLASH, SLASH], now, |names|), names);
    AlignedEven(|primary|);
    AlignedEven(|secondary|);
    AlignedEven(|names|);
    var r5 := m3 + Pad(|names|);
    var r4 := Pad(|secondary|) + r5;
    var r3 := m2 + r4;
    var r2 := Pad(|primary|) + r3;
    var p1 := |GLOBAL_MAGIC|;
    WholeIsAt(file);
    AtConcat(file, 0, GLOBAL_MAGIC, (m1 + r2) + rest);
    AtConcat(file, p1, m1 + r2, rest);
    AtConcat(file, p1, m1, r2);
    AtConcat(file, p1 + |m1|, Pad(|primary|), r3);
    AtConcat(file, p1 + HEADER_SIZE + Aligned(|primary|), m2, r4);
    AtConcat(file, p1 + HEADER_SIZE + Aligned(|primary|) + |m2|, Pad(|secondary|), r5);
    AtConcat(file, p1 + 2 * HEADER_SIZE + Aligned(|primary|) + Aligned(|secondary|), m3, Pad(|names|));
  }

  // ----- an archive that can be read back -----

  /** What a written archive holds. */
  datatype Source = Source(files: seq<File>, byFile: seq<Symbol>, byName: seq<Symbol>, now: nat)

  /** The archive was written, and is within the limits of the format. */
  ghost predicate Readable(file: seq<uint8>, s: Source)
  {
    && Writable(s.files, s.byFile, s.byName, s.now) && file == Written(s.files, s.byFile, s.byName, s.now)
    && |file| < TWO_32 && |s.files| < 0xFFFF && |s.byName| < TWO_32
    && (forall i :: 0 <= i < |s.files| ==> FileReadable(s.files[i]))
    && (forall i :: 0 <= i < |s.byName| ==>
          s.byName[i].name != [] && ZeroFree(s.byName[i].name) && s.byName[i].file < |s.files|)
  }

  function OffsetsOf(s: Source): (offsets: seq<nat>)
    requires AllFit(s.files)
    ensures |offsets| == |s.files|
  {
    WrittenOffsets(s.files, s.byFile, s.byName)
  }

  function PrimaryOf(s: Source): seq<uint8>
    requires AllFit(s.files)
  {
    PrimaryTable(OffsetsOf(s), s.byFile)
  }

  function SecondaryOf(s: Source): seq<uint8>
    requires AllFit(s.files)
  {
    SecondaryTable(OffsetsOf(s), s.byName)
  }

  function NamesOf(s: Source): seq<uint8> { NameTable(s.files, |s.files|) }

  function StartOf(s: Source): nat
    requires AllFit(s.files)
  {
    FilesStart(|PrimaryOf(s)|, |SecondaryOf(s)|, |NamesOf(s)|)
  }

  lemma {:induction false} ReadableParts(file: seq<uint8>, s: Source)
    requires Readable(file, s)
    ensures AllFit(s.files) && s.files != []
    ensures TablesFit(|PrimaryOf(s)|, |SecondaryOf(s)|, |NamesOf(s)|, s.now)
    ensures file == GLOBAL_MAGIC +
      (Tables(PrimaryOf(s), SecondaryOf(s), NamesOf(s), s.now) + FileBytes(s.files, |s.files|))
    ensures OffsetsOf(s) == FileOffsets(s.files, StartOf(s))
  {
    hide AllFit, TablesFit, PrimaryTable, SecondaryTable, NameTable, Tables, FileBytes, FileOffsets, FilesStart;
    var zeros := seq(|s.files|, _ => 0);
    TableLengths(zeros, OffsetsOf(s), s.byFile);
    TableLengths(zeros, OffsetsOf(s), s.byName);
  }

  /** The offsets lie in the archive, in ascending order. */
  lemma {:induction false} OffsetsInside(file: seq<uint8>, s: Source)
    requires Readable(file, s)
    ensures forall i :: 0 <= i < |s.files| ==>
      0 < OffsetsOf(s)[i] < |file| && OffsetsOf(s)[i] == FileOffset(s.files, StartOf(s), i)
    ensures forall i, j :: 0 <= i < j < |s.files| ==> OffsetsOf(s)[i] < OffsetsOf(s)[j]
    ensures |NamesOf(s)| < |file|
  {
    hide Readable, TablesFit, PrimaryTable, SecondaryTable, NameTable, Tables, FileBytes, FileOffset, Member, Aligned;
    ReadableParts(file, s);
    TablesLength(PrimaryOf(s), SecondaryOf(s), NamesOf(s), s.now);
    AlignedEven(|NamesOf(s)|);
    ArchiveParts(file, PrimaryOf(s), SecondaryOf(s), NamesOf(s), s.now, FileBytes(s.files, |s.files|));
    forall i | 0 <= i < |s.files|
      ensures 0 < OffsetsOf(s)[i] < |file| && OffsetsOf(s)[i] == FileOffset(s.files, StartOf(s), i)
    {
      FileAt(file, StartOf(s), s.files, |s.files|, i);
      StartIsFirst(s, i);
    }
    forall i, j | 0 <= i < j < |s.files| ensures OffsetsOf(s)[i] < OffsetsOf(s)[j] {
      OffsetsAscend(s.files, StartOf(s), i, j);
    }
  }

  /** The primary table, which the reader skips, is right: the offset that it has for a symbol is where the file
      that defines the symbol lies in the archive. */
  lemma {:induction false} PrimaryTableLeads(file: seq<uint8>, s: Source, k: nat)
    requires Readable(file, s) && k < |s.byFile| && s.byFile[k].file < |s.files|
    ensures var pos, i := |GLOBAL_MAGIC| + HEADER_SIZE, s.byFile[k].file;
      && Has(file, pos, 4 + 4 * |s.byFile|) && ReadBig32(file, pos) == |s.byFile|
      && Fits(RawHeader(s.files, i))
      && At(file, ReadBig32(file, pos + 4 + 4 * k), Member(RawHeader(s.files, i), s.files[i].contents))
      && At(file, pos + 4 + 4 * |s.byFile| + |Names(s.byFile[..k])|, s.byFile[k].name + [0])
  {
    hide Readable, SecondaryTable, NameTable, Tables, FileBytes, FileOffset, Aligned, HeaderBytes, Fits, At;
    ReadableParts(file, s);
    ArchiveParts(file, PrimaryOf(s), SecondaryOf(s), NamesOf(s), s.now, FileBytes(s.files, |s.files|));
    AtConcat(file, |GLOBAL_MAGIC|, HeaderBytes(TableHeader([SLASH], s.now, |PrimaryOf(s)|)), PrimaryOf(s));
    AtHas(file, |GLOBAL_MAGIC| + HEADER_SIZE, PrimaryOf(s));
    OffsetsInside(file, s);
    FileAt(file, StartOf(s), s.files, |s.files|, s.byFile[k].file);
    ReadableLimit(file, s);
    PrimaryTableAt(file, |GLOBAL_MAGIC| + HEADER_SIZE, OffsetsOf(s), s.byFile, k);
  }

  lemma {:induction false} ReadableLimit(file: seq<uint8>, s: Source)
    requires Readable(file, s)
    ensures |file| < TWO_32
  {
  }

  lemma {:induction false} StartIsFirst(s: Source, i: nat)
    requires AllFit(s.files) && i < |s.files|
    ensures 0 < StartOf(s) <= FileOffset(s.files, StartOf(s), i)
  {
  }

  lemma {:induction false} TableIsReadable(file: seq<uint8>, s: Source)
    requires Readable(file, s)
    ensures AllFit(s.files) && TableFits(OffsetsOf(s), s.byName, |file|)
    ensures Present(OffsetsOf(s)) == OffsetsOf(s) && Renumbered(OffsetsOf(s), s.byName) == s.byName
  {
    hide TablesFit, PrimaryTable, SecondaryTable, NameTable, Written, FileReadable, WrittenOffsets, FileOffset;
    OffsetsInside(file, s);
    hide Readable, ZeroFree, Present;
    AllPresent(OffsetsOf(s));
    NoneRenumbered(OffsetsOf(s), s.byName);
  }

  /** Both symbol tables are read. */
  lemma {:induction false} SymbolTablesRead(file: seq<uint8>, s: Source)
    requires Readable(file, s)
    ensures AllFit(s.files)
    ensures var primary, secondary, p1 := PrimaryOf(s), SecondaryOf(s), |GLOBAL_MAGIC|;
      && HeaderAt(file, p1) == Some(TableHeader([SLASH], s.now, |primary|))
      && MemberAt(file, p1 + HEADER_SIZE + Aligned(|primary|))
         == Some(File(TableHeader([SLASH], s.now, |secondary|), secondary))
  {
    hide Readable, Member, Aligned, At, PrimaryTable, SecondaryTable, ParsesBack, FileBytes, Tables, NameTable;
    hide HeaderAt, MemberAt, Fits;
    ReadableParts(file, s);
    var primary, secondary := PrimaryOf(s), SecondaryOf(s);
    ArchiveParts(file, primary, secondary, NamesOf(s), s.now, FileBytes(s.files, |s.files|));
    TableHeaderParses([SLASH], s.now, |primary|);
    TableHeaderParses([SLASH], s.now, |secondary|);
    MemberReads(file, |GLOBAL_MAGIC|, TableHeader([SLASH], s.now, |primary|), primary);
    MemberReads(file, |GLOBAL_MAGIC| + HEADER_SIZE + Aligned(|primary|), TableHeader([SLASH], s.now, |secondary|),
                secondary);
  }

  /** The name table is read. */
  lemma {:induction false} NamesRead(file: seq<uint8>, s: Source)
    requires Readable(file, s)
    ensures AllFit(s.files)
    ensures var p3 := |GLOBAL_MAGIC| + 2 * HEADER_SIZE + Aligned(|PrimaryOf(s)|) + Aligned(|SecondaryOf(s)|);
      && MemberAt(file, p3) == Some(File(TableHeader([SLASH, SLASH], s.now, |NamesOf(s)|), NamesOf(s)))
      && p3 + HEADER_SIZE + Aligned(|NamesOf(s)|) == StartOf(s)
  {
    hide Readable, Member, Aligned, At, PrimaryTable, SecondaryTable, ParsesBack, FileBytes, Tables, NameTable;
    hide MemberAt, Fits;
    ReadableParts(file, s);
    var names := NamesOf(s);
    ArchiveParts(file, PrimaryOf(s), SecondaryOf(s), names, s.now, FileBytes(s.files, |s.files|));
    TableHeaderParses([SLASH, SLASH], s.now, |names|);
    MemberReads(file, |GLOBAL_MAGIC| + 2 * HEADER_SIZE + Aligned(|PrimaryOf(s)|) + Aligned(|SecondaryOf(s)|),
                TableHeader([SLASH, SLASH], s.now, |names|), names);
  }

  /** A file is read, and its name is found. */
  lemma {:induction false} FileReads(file: seq<uint8>, s: Source, i: nat)
    requires Readable(file, s) && i < |s.files|
    ensures AllFit(s.files)
    ensures MemberAt(file, OffsetsOf(s)[i]) == Some(File(RawHeader(s.files, i), s.files[i].contents))
    ensures RawHeader(s.files, i).size == |s.files[i].contents|
    ensures TranslatedName(RawHeader(s.files, i).name, NamesOf(s)) == Some(s.files[i].header.name)
    ensures RawHeader(s.files, i).(name := s.files[i].header.name) == s.files[i].header
    ensures var next := OffsetsOf(s)[i] + HEADER_SIZE + Aligned(|s.files[i].contents|);
      if i + 1 < |s.files| then next == OffsetsOf(s)[i + 1] else next >= |file|
  {
    hide Readable, Member, Aligned, At, ParsesBack, WrittenOffsets, NameTable, TranslatedName, RawHeader;
    BehindFile(file, s, i);
    MemberReads(file, OffsetsOf(s)[i], RawHeader(s.files, i), s.files[i].contents);
  }

  /** A written archive is read as it should be: the cursor goes from file to file and then to the end. */
  ghost predicate CursorAt(file: seq<uint8>, s: Source, offsets: seq<nat>, offset: nat, i: nat)
  {
    i <= |s.files| == |offsets| && if i < |s.files| then offset == offsets[i] else offset >= |file|
  }

  /** In a written archive the offset of the cursor determines the index. */
  lemma {:induction false} CursorIsUnique(file: seq<uint8>, s: Source, offset: nat, i: nat, j: nat)
    requires Readable(file, s) && AllFit(s.files) && i < |s.files|
    requires CursorAt(file, s, OffsetsOf(s), offset, j) && offset == OffsetsOf(s)[i]
    ensures i == j
  {
    hide Readable, WrittenOffsets;
    OffsetsInside(file, s);
  }

  // ----- the reader -----

  /** Behind a file is the next one, or the end of the archive. */
  lemma {:induction false} BehindFile(file: seq<uint8>, s: Source, i: nat)
    requires Readable(file, s) && i < |s.files|
    ensures AllFit(s.files) && At(file, OffsetsOf(s)[i], Member(RawHeader(s.files, i), s.files[i].contents))
    ensures var next := OffsetsOf(s)[i] + HEADER_SIZE + Aligned(|s.files[i].contents|);
      if i + 1 < |s.files| then next == OffsetsOf(s)[i + 1] else next >= |file|
    ensures ParsesBack(RawHeader(s.files, i)) && RawHeader(s.files, i).size == |s.files[i].contents|
    ensures TranslatedName(RawHeader(s.files, i).name, NamesOf(s)) == Some(s.files[i].header.name)
    ensures RawHeader(s.files, i).(name := s.files[i].header.name) == s.files[i].header
  {
    hide TablesFit, PrimaryTable, SecondaryTable, NameTable, Written, WrittenOffsets, FileOffset, Member, Aligned,
      FileBytes, Tables, Fits, InternalName, TranslatedName;
    ReadableParts(file, s);
    OffsetsInside(file, s);
    ArchiveParts(file, PrimaryOf(s), SecondaryOf(s), NamesOf(s), s.now, FileBytes(s.files, |s.files|));
    TablesLength(PrimaryOf(s), SecondaryOf(s), NamesOf(s), s.now);
    FileAt(file, StartOf(s), s.files, |s.files|, i);
    RawHeaderParses(s.files, i);
    NameTranslates(s.files, i);
    if i + 1 < |s.files| {
      NextOffset(s.files, StartOf(s), i);
    } else {
      LastFileEnds(s.files, StartOf(s));
      assert |file| == StartOf(s) + |FileBytes(s.files, |s.files|)|;
    }
  }

  lemma {:induction false} LastFileEnds(files: seq<File>, start: nat)
    requires files != [] && AllFit(files)
    ensures var i := |files| - 1;
      FileOffset(files, start, i) + HEADER_SIZE + Aligned(|files[i].contents|) >= start + |FileBytes(files, |files|)|
  {
    hide Member;
    var i := |files| - 1;
    FileBytesStep(files, i);
    AlignedEven(|FileBytes(files, i)|);
    AlignedEven(|files[i].contents|);
  }

  class ArReader {
    const file: seq<uint8>
    var offset: nat
    var index: nat
    var symbols: map<Name, nat>
    var offsets: seq<nat>
    var offsetsInverse: map<nat, nat>
    var filenames: seq<uint8>

    constructor (file: seq<uint8>)
      ensures this.file == file && offset == 0 && index == 0 && offsets == []
    {
      this.file := file;
      offset, index, symbols, offsets, offsetsInverse, filenames := 0, 0, map[], [], map[], [];
    }

    /** The cursor is at file `i` of a written archive, or behind the last one. */
    ghost predicate IsAt(s: Source, i: nat)
      reads this
    {
      && Readable(file, s) && offsets == OffsetsOf(s) && filenames == NamesOf(s) && symbols == TableOf(s.byName)
      && (forall o :: o in offsetsInverse <==> o in offsets)
      && index == i && CursorAt(file, s, offsets, offset, i)
    }

    /** Reads the next member: its header and, if they are wanted, its contents. */
    method ReadNextFile(wanted: bool) returns (ok: bool, h: Header, data: seq<uint8>)
      modifies this`offset
      ensures ok <==> if wanted then MemberAt(file, old(offset)).Some? else HeaderAt(file, old(offset)).Some?
      ensures ok ==> if wanted then MemberAt(file, old(offset)) == Some(File(h, data))
                     else HeaderAt(file, old(offset)) == Some(h)
      ensures ok ==> offset == old(offset) + HEADER_SIZE + Aligned(h.size)
    {
      hide ParsedHeader;
      h, data := Header([], 0, 0, 0), [];
      if offset + HEADER_SIZE > |file| {
        return false, h, data;
      }
      ok, h := ParseArFileHeader(file[offset..offset + HEADER_SIZE]);
      if !ok { return; }
      offset := offset + HEADER_SIZE;
      var seekSize := Aligned(h.size);
      if wanted {
        seekSize := seekSize - h.size;
        if offset + h.size > |file| {
          return false, h, data;
        }
        data := file[offset..offset + h.size];
        offset := offset + h.size;
      }
      offset := offset + seekSize;
    }

    /** Goes to a file. The index is not updated if the cursor is already there, which it is in a written archive
        only if the index is the right one. */
    method SeekIndex(i: nat, ghost s: Source, ghost j: nat) returns (ok: bool)
      modifies this`offset, this`index
      ensures ok <==> i < |offsets|
      ensures ok ==> offset == offsets[i] && index == if old(offset) == offsets[i] then old(index) else i
      ensures old(IsAt(s, j)) && ok ==> IsAt(s, i)
    {
      hide Readable, TableOf, WrittenOffsets, NameTable;
      if i >= |offsets| {
        return false;
      }
      if offset == offsets[i] {
        if IsAt(s, j) {
          ReadableParts(file, s);
          CursorIsUnique(file, s, offset, i, j);
        }
        return true;
      }
      offset := offsets[i];
      index := i;
      ok := true;
    }

    predicate HasNext()
      reads this
    {
      index < |offsets|
    }

    /** The header is that of a symbol table. */
    static predicate IsTable(h: Option<Header>) { h.Some? && h.value.name == [SLASH] }

    /** Reads both symbol tables, and parses the second one. */
    method ReadSymbolTables(ghost s: Source) returns (ok: bool)
      requires offset == |GLOBAL_MAGIC|
      modifies this`offset, this`symbols, this`offsets
      ensures ok ==> IsTable(HeaderAt(file, old(offset))) && forall i :: 0 <= i < |offsets| ==> 0 < offsets[i] < |file|
      ensures ok ==> forall name :: name in symbols ==> name != [] && symbols[name] < |offsets|
      ensures Readable(file, s) ==>
        && ok && symbols == TableOf(s.byName) && offsets == OffsetsOf(s)
        && offset == |GLOBAL_MAGIC| + 2 * HEADER_SIZE + Aligned(|PrimaryOf(s)|) + Aligned(|SecondaryOf(s)|)
    {
      hide Readable, Member, Aligned, At, TableOf, PrimaryTable, SecondaryTable, ParsesBack, FileBytes, Tables;
      hide TableFits, HeaderAt, MemberAt;
      ghost var saved := Readable(file, s);
      if saved {
        SymbolTablesRead(file, s);
        TableIsReadable(file, s);
      }
      var h, data;
      ok, h, data := ReadNextFile(false);
      if !ok { return; }
      if h.name != [SLASH] {
        return false;
      }
      ok, h, data := ReadNextFile(true);
      if !ok { return; }
      if h.name != [SLASH] {
        return false;
      }
      ghost var offsets0: seq<nat>, symbols0: seq<Symbol> := [], [];
      if saved { offsets0, symbols0 := OffsetsOf(s), s.byName; }
      ok, symbols, offsets := ParseSecondarySymbolTable(|file|, data, offsets0, symbols0);
    }

    /** Reads the name table, if there is one. */
    method ReadNames(ghost s: Source) returns (ok: bool)
      modifies this`offset, this`filenames
      ensures ok <==> MemberAt(file, old(offset)).Some?
      ensures ok ==> var m := MemberAt(file, old(offset)).value;
        filenames == if m.header.name == [SLASH, SLASH] then m.contents else old(filenames)
      ensures old(Readable(file, s) &&
                offset == |GLOBAL_MAGIC| + 2 * HEADER_SIZE + Aligned(|PrimaryOf(s)|) + Aligned(|SecondaryOf(s)|)) ==>
        ok && filenames == NamesOf(s) && offset == StartOf(s)
    {
      hide Readable, Aligned, PrimaryTable, SecondaryTable, NameTable, HeaderAt, MemberAt;
      if Readable(file, s) { NamesRead(file, s); }
      var h, data;
      ok, h, data := ReadNextFile(true);
      if ok && h.name == [SLASH, SLASH] {
        filenames := data;
      }
    }

    static predicate AllDifferent(s: seq<nat>) { forall i, j :: 0 <= i < j < |s| ==> s[i] != s[j] }

    /** Creates an inverse of the offsets, which have to be different. */
    method InvertOffsets() returns (ok: bool)
      modifies this`offsetsInverse
      ensures ok ==> forall o :: o in offsetsInverse <==> o in offsets
      ensures ok ==> forall i :: 0 <= i < |offsets| ==> offsetsInverse[offsets[i]] == i
      ensures ok <==> AllDifferent(offsets)
    {
      offsetsInverse := map[];
      for i := 0 to |offsets|
        invariant forall o :: o in offsetsInverse <==> o in offsets[..i]
        invariant forall k :: 0 <= k < i ==> offsets[k] in offsets[..i] && offsetsInverse[offsets[k]] == k
        invariant forall j, k :: 0 <= j < k < i ==> offsets[j] != offsets[k]
      {
        if offsets[i] in offsetsInverse {
          return false;
        }
        assert offsets[..i + 1] == offsets[..i] + [offsets[i]];
        offsetsInverse := offsetsInverse[offsets[i] := i];
      }
      assert offsets[..|offsets|] == offsets;
      ok := true;
    }

    /** Opens an archive. */
    method Init(ghost s: Source) returns (ok: bool)
      requires offset == 0 && index == 0 && offsets == []
      modifies this
      ensures ok ==> GLOBAL_MAGIC <= file && IsTable(HeaderAt(file, |GLOBAL_MAGIC|))
      ensures ok ==> AllDifferent(offsets) && forall i :: 0 <= i < |offsets| ==> 0 < offsets[i] < |file|
      ensures ok ==> HasNext() && index == 0
      ensures ok ==> forall name :: name in symbols ==> name != [] && symbols[name] < |offsets|
      ensures Readable(file, s) ==> ok && IsAt(s, 0)
    {
      hide Readable, TableOf, PrimaryTable, SecondaryTable, NameTable, FileBytes, Tables, Aligned, FilesStart;
      hide HeaderAt, MemberAt;
      ghost var saved := Readable(file, s);
      if saved {
        ReadableParts(file, s);
        ArchiveParts(file, PrimaryOf(s), SecondaryOf(s), NamesOf(s), s.now, FileBytes(s.files, |s.files|));
        OffsetsInside(file, s);
        assert AllDifferent(OffsetsOf(s));
      }
      hide AllDifferent, ArReader.IsTable;
      if |file| < |GLOBAL_MAGIC| || file[..|GLOBAL_MAGIC|] != GLOBAL_MAGIC {
        return false;
      }
      offset := |GLOBAL_MAGIC|;
      ok := ReadSymbolTables(s);
      if !ok { return; }
      ok := ReadNames(s);
      if !ok { return; }
      ok := InvertOffsets();
      if !ok { return; }
      ghost var at := index;
      ok := SeekIndex(0, s, at);
    }

    /** The file at the cursor with its full name, if the cursor is at a file or at the end, the file is there, and
        its name can be found. */
    function Next(): Option<File>
      requires HasNext()
      reads this
    {
      var m := MemberAt(file, offsets[index]);
      if (offset < |file| && offset !in offsetsInverse) || m.None? then None
      else
        var name := TranslatedName(m.value.header.name, filenames);
        if name.None? then None else Some(m.value.(header := m.value.header.(name := name.value)))
    }

    /** Extracts the file at the cursor, with its full name. */
    method ExtractNext(ghost s: Source, ghost i: nat) returns (ok: bool, h: Header, data: seq<uint8>)
      requires HasNext()
      modifies this`offset, this`index
      ensures ok <==> old(Next()).Some?
      ensures ok ==> old(Next()) == Some(File(h, data)) && index == old(index) + 1
      ensures ok ==> offset == offsets[old(index)] + HEADER_SIZE + Aligned(h.size)
      ensures old(IsAt(s, i)) ==>
        && i < |s.files| && ok && File(h, data) == s.files[i] && IsAt(s, i + 1)
    {
      hide Readable, TableOf, TranslatedName, Aligned, WrittenOffsets, NameTable, HeaderAt, MemberAt;
      if IsAt(s, i) {
        FileReads(file, s, i);
        assert offsets[i] in offsets;
      }
      ok, h, data := ExtractMember();
    }

    method ExtractMember() returns (ok: bool, h: Header, data: seq<uint8>)
      requires HasNext()
      modifies this`offset, this`index
      ensures ok <==> old(Next()).Some?
      ensures ok ==> old(Next()) == Some(File(h, data)) && index == old(index) + 1
      ensures ok ==> offset == offsets[old(index)] + HEADER_SIZE + Aligned(h.size)
    {
      hide TranslatedName, Aligned, HeaderAt, MemberAt;
      h, data := Header([], 0, 0, 0), [];
      if offset < |file| && offset !in offsetsInverse {
        return false, h, data;
      }
      offset := offsets[index];
      ok, h, data := ReadNextFile(true);
      if !ok { return; }
      index := index + 1;
      var full;
      ok, full := TranslateFilename(h.name, filenames);
      if !ok { return; }
      h := h.(name := full);
    }
  }

  /** Reads a whole archive. */
  method ReadArchive(file: seq<uint8>, ghost s: Source) returns (ok: bool, files: seq<File>, symbols: map<Name, nat>)
    ensures ok ==> GLOBAL_MAGIC <= file && forall name :: name in symbols ==> name != [] && symbols[name] < |files|
    ensures Readable(file, s) ==> ok && files == s.files && symbols == TableOf(s.byName)
  {
    hide Readable, TableOf, WrittenOffsets, NameTable, HeaderAt, MemberAt, ArReader.IsTable, ArReader.AllDifferent;
    hide TranslatedName;
    files, symbols := [], map[];
    ghost var saved := Readable(file, s);
    var reader := new ArReader(file);
    ok := reader.Init(s);
    if !ok { return; }
    symbols := reader.symbols;
    var count := |reader.offsets|;
    while reader.HasNext()
      invariant reader.index == |files| <= count
      invariant reader.file == file && |reader.offsets| == count && (saved ==> symbols == TableOf(s.byName))
      invariant saved ==> reader.IsAt(s, |files|) && files == s.files[..|files|]
      decreases count - reader.index
    {
      var h, data;
      ok, h, data := reader.ExtractNext(s, |files|);
      if !ok { return; }
      files := files + [File(h, data)];
    }
    ok := true;
  }

  /** Reading what was written gives the files back in order, with their names, timestamps, modes and contents,
      and the symbols. */
  method WriteAndRead(writer: ArWriter, now: nat)
    returns (wrote: bool, image: seq<uint8>, ok: bool, files: seq<File>, symbols: map<Name, nat>)
    requires writer.Valid() && |writer.files| < 0xFFFF && |writer.table.symbols| < TWO_32
    requires forall i :: 0 <= i < |writer.files| ==> FileReadable(writer.files[i])
    requires forall name :: name in writer.table.symbols ==> name != [] && ZeroFree(name)
    ensures wrote && |image| < TWO_32 ==> ok && files == writer.files && symbols == writer.table.symbols
  {
    hide Writable, Written, TableOf, ZeroFree, FileReadable, TablesOf, Sorted;
    ok, files, symbols := false, [], map[];
    ghost var byFile, byName;
    wrote, image, byFile, byName := writer.Write(now);
    if !wrote { return; }
    ghost var s := Source(writer.files, byFile, byName, now);
    SymbolsHaveFiles(writer.table.history, writer.table.symbols, writer.table.weakSymbols, |writer.files|, byName);
    ListsTable(byName, writer.table.symbols);
    assert |image| < TWO_32 ==> Readable(image, s);
    ok, files, symbols := ReadArchive(image, s);
  }
}
