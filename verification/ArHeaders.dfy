/** The headers of the files in an archive: fields of text, padded with spaces (section 7, Archive (Library) File
    Format, of the Microsoft PE/COFF specification), and the names that they hold. */
module ArHeaders {
  import opened Types
  import opened ByteStrings
  import opened ArSymbols
  import opened Buffers

  const SPACE: uint8 := 32
  const MINUS: uint8 := 45
  const SLASH: uint8 := 47
  const ZERO: uint8 := 48
  const FILE_MAGIC: seq<uint8> := [0x60, 0x0A]
  const HEADER_SIZE: nat := 60
  const NAME_SIZE: nat := 16

  datatype Header = Header(name: Name, timestamp: nat, mode: nat, size: nat)

  // ----- numbers as text -----

  predicate IsDigit(c: uint8) { ZERO <= c < ZERO + 10 }

  function Digits(n: nat): (s: seq<uint8>)
    ensures |s| > 0 && forall i :: 0 <= i < |s| ==> IsDigit(s[i])
  {
    if n < 10 then [ZERO + n] else Digits(n / 10) + [ZERO + n % 10]
  }

  /** The number that the digits stand for; none if there is something else among them. */
  function ParsedDigits(s: seq<uint8>): Option<nat>
  {
    if s == [] then Some(0)
    else
      var rest, c := ParsedDigits(s[..|s| - 1]), s[|s| - 1];
      if rest.None? || !IsDigit(c) then None else Some(10 * rest.value + (c - ZERO))
  }

  lemma {:induction false} DigitsParse(n: nat)
    ensures ParsedDigits(Digits(n)) == Some(n)
  {
    var s := Digits(n);
    if n < 10 {
      assert s[..0] == [];
    } else {
      assert s[..|s| - 1] == Digits(n / 10);
      DigitsParse(n / 10);
    }
  }

  lemma {:induction false} NotDigits(s: seq<uint8>, i: nat)
    requires i < |s| && !IsDigit(s[i])
    ensures ParsedDigits(s).None?
  {
    if i < |s| - 1 { NotDigits(s[..|s| - 1], i); }
  }

  /** A mode is printed as a signed number. */
  function ModeText(mode: nat): seq<uint8>
  {
    if mode < 0x8000_0000 || mode >= TWO_32 then Digits(mode) else [MINUS] + Digits(TWO_32 - mode)
  }

  function Pow10(k: nat): nat { if k == 0 then 1 else 10 * Pow10(k - 1) }

  lemma {:induction false} DigitsFitIff(n: nat, k: nat)
    requires k > 0
    ensures |Digits(n)| <= k <==> n < Pow10(k)
  {
    if k == 1 {
      assert Pow10(1) == 10 * Pow10(0);
    } else if n >= 10 {
      DigitsFitIff(n / 10, k - 1);
    } else {
      Pow10Grows(k);
    }
  }

  lemma {:induction false} Pow10Grows(k: nat)
    requires k > 0
    ensures Pow10(k) >= 10
  {
    if k > 1 { Pow10Grows(k - 1); }
  }

  /** Which modes have eight characters or fewer: of those that are printed as negative numbers, the last ones. */
  lemma {:induction false} ModeFitsIff(mode: nat)
    requires mode < TWO_32
    ensures |ModeText(mode)| <= 8 <==> mode < 100_000_000 || mode > TWO_32 - 10_000_000
  {
    hide Digits;
    assert Pow10(7) == 10_000_000 && Pow10(8) == 100_000_000 by {
      assert Pow10(2) == 100 && Pow10(4) == 10_000;
    }
    DigitsFitIff(mode, 8);
    if mode >= 0x8000_0000 { DigitsFitIff(TWO_32 - mode, 7); }
  }

  // ----- fields -----

  function Spaces(n: nat): (s: seq<uint8>)
    ensures |s| == n
  {
    seq(n, _ => SPACE)
  }

  function Field(text: seq<uint8>, width: nat): (s: seq<uint8>)
    requires |text| <= width
    ensures |s| == width
  {
    text + Spaces(width - |text|)
  }

  /** A field without the spaces at its end. */
  function Stripped(s: seq<uint8>): (t: seq<uint8>)
    ensures |t| <= |s| && t == s[..|t|]
  {
    if s == [] || s[|s| - 1] != SPACE then s else Stripped(s[..|s| - 1])
  }

  lemma {:induction false} FieldStrips(text: seq<uint8>, width: nat)
    requires |text| <= width && (text == [] || text[|text| - 1] != SPACE)
    ensures Stripped(Field(text, width)) == text
    decreases width - |text|
  {
    var s := Field(text, width);
    if |text| < width {
      assert s[..|s| - 1] == Field(text, width - 1);
      FieldStrips(text, width - 1);
    } else {
      assert s == text;
    }
  }

  /** A number in a field; an empty field stands for no number, which is `blank`. */
  function ParsedNumber(field: seq<uint8>, blank: nat): Option<nat>
  {
    if Stripped(field) == [] then Some(blank) else ParsedDigits(Stripped(field))
  }

  lemma {:induction false} NumberParses(n: nat, width: nat, blank: nat)
    requires |Digits(n)| <= width
    ensures ParsedNumber(Field(Digits(n), width), blank) == Some(n)
  {
    hide Digits, Stripped, ParsedDigits;
    FieldStrips(Digits(n), width);
    DigitsParse(n);
  }

  // ----- headers -----

  predicate Fits(h: Header)
  {
    && |h.name| <= NAME_SIZE && |Digits(h.timestamp)| <= 12 && |ModeText(h.mode)| <= 8 && |Digits(h.size)| <= 10
  }

  /** The owner and the group are blank. */
  function HeaderBytes(h: Header): (s: seq<uint8>)
    requires Fits(h)
    ensures |s| == HEADER_SIZE
  {
    Field(h.name, NAME_SIZE) + Field(Digits(h.timestamp), 12) + Spaces(12) + Field(ModeText(h.mode), 8)
      + Field(Digits(h.size), 10) + FILE_MAGIC
  }

  /** What a header says. */
  function ParsedHeader(raw: seq<uint8>): Option<Header>
    requires |raw| == HEADER_SIZE
  {
    var timestamp := ParsedNumber(raw[16..28], 0xFFFF_FFFF_FFFF_FFFF);
    var mode := ParsedNumber(raw[40..48], 0xFFFF_FFFF);
    var size := ParsedNumber(raw[48..58], 0xFFFF_FFFF_FFFF_FFFF);
    if timestamp.None? || mode.None? || size.None? then None
    else Some(Header(Stripped(raw[..16]), timestamp.value, mode.value, size.value))
  }

  lemma {:induction false} HeaderFields(h: Header)
    requires Fits(h)
    ensures var raw := HeaderBytes(h);
      && raw[..16] == Field(h.name, 16) && raw[16..28] == Field(Digits(h.timestamp), 12)
      && raw[40..48] == Field(ModeText(h.mode), 8) && raw[48..58] == Field(Digits(h.size), 10)
  {
    hide Digits, ModeText, Field;
  }

  lemma {:induction false} ModeParsesIff(mode: nat)
    requires mode < TWO_32 && |ModeText(mode)| <= 8
    ensures ParsedNumber(Field(ModeText(mode), 8), 0xFFFF_FFFF) == if mode < 0x8000_0000 then Some(mode) else None
  {
    hide Digits, Stripped, ParsedDigits;
    var text := ModeText(mode);
    if mode < 0x8000_0000 {
      NumberParses(mode, 8, 0xFFFF_FFFF);
    } else {
      assert text[|text| - 1] == Digits(TWO_32 - mode)[|Digits(TWO_32 - mode)| - 1];
      FieldStrips(text, 8);
      NotDigits(text, 0);
    }
  }

  /** A header that can be written is read back if and only if its mode is not printed as a negative number; its
      name must not end with a space. */
  lemma {:induction false} HeaderParsesIff(h: Header)
    requires Fits(h) && h.mode < TWO_32 && (h.name == [] || h.name[|h.name| - 1] != SPACE)
    ensures ParsedHeader(HeaderBytes(h)) == if h.mode < 0x8000_0000 then Some(h) else None
  {
    hide Digits, ModeText, Field, Stripped, ParsedNumber, HeaderBytes;
    HeaderFields(h);
    NumberParses(h.timestamp, 12, 0xFFFF_FFFF_FFFF_FFFF);
    NumberParses(h.size, 10, 0xFFFF_FFFF_FFFF_FFFF);
    ModeParsesIff(h.mode);
    FieldStrips(h.name, 16);
  }

  /** The length of a space-terminated string. */
  method ArStringLength(s: seq<uint8>) returns (l: nat)
    ensures l == |Stripped(s)|
  {
    l := |s|;
    assert s[..|s|] == s;
    while l > 0 && s[l - 1] == SPACE
      invariant l <= |s| && Stripped(s[..l]) == Stripped(s)
    {
      assert s[..l][..l - 1] == s[..l - 1];
      l := l - 1;
    }
  }

  method ParseArNumber(s: seq<uint8>, blank: nat) returns (ok: bool, value: nat)
    ensures ok <==> ParsedNumber(s, blank).Some?
    ensures ok ==> value == ParsedNumber(s, blank).value
  {
    value := 0;
    var l := ArStringLength(s);
    if l == 0 {
      return true, blank;
    }
    ghost var text := Stripped(s);
    for i := 0 to l
      invariant ParsedDigits(text[..i]) == Some(value)
    {
      assert text[..i + 1][..i] == text[..i];
      if !IsDigit(s[i]) {
        NotDigits(text, i);
        return false, value;
      }
      value := value * 10 + (s[i] - ZERO);
    }
    assert text[..l] == text;
    ok := true;
  }

  method ParseArFileHeader(raw: seq<uint8>) returns (ok: bool, h: Header)
    requires |raw| == HEADER_SIZE
    ensures ok <==> ParsedHeader(raw).Some?
    ensures ok ==> h == ParsedHeader(raw).value
  {
    hide Stripped, ParsedNumber;
    h := Header([], 0, 0, 0);
    var l := ArStringLength(raw[..16]);
    var timestamp, mode, size;
    ok, timestamp := ParseArNumber(raw[16..28], 0xFFFF_FFFF_FFFF_FFFF);
    if !ok { return; }
    ok, mode := ParseArNumber(raw[40..48], 0xFFFF_FFFF);
    if !ok { return; }
    ok, size := ParseArNumber(raw[48..58], 0xFFFF_FFFF_FFFF_FFFF);
    if !ok { return; }
    h := Header(raw[..16][..l], timestamp, mode, size);
  }

  /** Fills in a raw header; fails if a field is too long. */
  method PopulateArFileHeader(h: Header, raw: array<uint8>) returns (ok: bool)
    requires raw.Length == HEADER_SIZE
    modifies raw
    ensures ok <==> Fits(h)
    ensures ok ==> raw[..] == HeaderBytes(h)
  {
    hide Digits, ModeText;
    var timestamp, mode, size := Digits(h.timestamp), ModeText(h.mode), Digits(h.size);
    if |h.name| > NAME_SIZE || |timestamp| > 12 || |mode| > 8 || |size| > 10 {
      return false;
    }
    CopyBytes(raw, 0, Spaces(HEADER_SIZE));
    CopyBytes(raw, 0, h.name);
    CopyBytes(raw, 16, timestamp);
    CopyBytes(raw, 40, mode);
    CopyBytes(raw, 48, size);
    CopyBytes(raw, 58, FILE_MAGIC);
    HeaderIs(raw[..], h);
    ok := true;
  }

  function HeaderByte(h: Header, x: nat): uint8
    requires x < HEADER_SIZE
  {
    if 58 <= x then FILE_MAGIC[x - 58]
    else if 48 <= x < 48 + |Digits(h.size)| then Digits(h.size)[x - 48]
    else if 40 <= x < 40 + |ModeText(h.mode)| then ModeText(h.mode)[x - 40]
    else if 16 <= x < 16 + |Digits(h.timestamp)| then Digits(h.timestamp)[x - 16]
    else if x < |h.name| then h.name[x]
    else SPACE
  }

  lemma {:induction false} HeaderIs(raw: seq<uint8>, h: Header)
    requires Fits(h) && |raw| == HEADER_SIZE
    requires forall x :: 0 <= x < HEADER_SIZE ==> raw[x] == HeaderByte(h, x)
    ensures raw == HeaderBytes(h)
  {
    hide Digits, ModeText;
    assert raw[..16] == Field(h.name, 16);
    assert raw[16..28] == Field(Digits(h.timestamp), 12);
    assert raw[28..40] == Spaces(12);
    assert raw[40..48] == Field(ModeText(h.mode), 8);
    assert raw[48..58] == Field(Digits(h.size), 10);
    assert raw[58..] == FILE_MAGIC;
    assert raw == raw[..16] + raw[16..28] + raw[28..40] + raw[40..48] + raw[48..58] + raw[58..];
  }

  // ----- names -----

  /** A name as it is in a header: a short one ends with a slash, a long one is an offset in the name table. */
  function InternalName(name: Name, table: nat): Name
  {
    if |name| < NAME_SIZE then name + [SLASH] else [SLASH] + Digits(table)
  }

  /** What a name adds to the name table. */
  function TableEntry(name: Name): seq<uint8> { if |name| < NAME_SIZE then [] else name + [0] }

  /** The bytes up to the first zero. */
  function CString(data: seq<uint8>): (s: seq<uint8>)
    ensures |s| <= |data| && s == data[..|s|] && (forall i :: 0 <= i < |s| ==> s[i] != 0)
    ensures |s| < |data| ==> data[|s|] == 0
  {
    if data == [] || data[0] == 0 then [] else [data[0]] + CString(data[1..])
  }

  /** An unsigned number in decimal notation. */
  function StringToUint(s: seq<uint8>): Option<nat>
  {
    if s == [] || ParsedDigits(s).None? || ParsedDigits(s).value >= TWO_32 then None else ParsedDigits(s)
  }

  function TranslatedName(name: Name, filenames: seq<uint8>): Option<Name>
  {
    if name == [] then None
    else if name[0] != SLASH then
      if name[|name| - 1] != SLASH then None else Some(name[..|name| - 1])
    else
      var offset := StringToUint(name[1..]);
      if offset.None? || offset.value >= |filenames| then None else Some(CString(filenames[offset.value..]))
  }

  predicate ZeroFree(s: seq<uint8>) { forall i :: 0 <= i < |s| ==> s[i] != 0 }

  lemma {:induction false} CStringIs(s: seq<uint8>, rest: seq<uint8>)
    requires ZeroFree(s)
    ensures CString(s + [0] + rest) == s
  {
    if s != [] {
      assert (s + [0] + rest)[1..] == s[1..] + [0] + rest;
      CStringIs(s[1..], rest);
    }
  }

  /** A short name is translated back if and only if it is not empty and does not start with a slash. */
  lemma {:induction false} ShortNameTranslatesIff(name: Name, table: nat, filenames: seq<uint8>)
    requires |name| < NAME_SIZE
    ensures TranslatedName(InternalName(name, table), filenames) == Some(name) <==> name != [] && name[0] != SLASH
  {
    var internal := InternalName(name, table);
    if name == [] {
      assert internal == [SLASH];
    } else if name[0] == SLASH {
      NotDigits(internal[1..], |internal| - 2);
    } else {
      assert internal[..|internal| - 1] == name;
    }
  }

  /** A long name without zeros is found in the name table. */
  lemma {:induction false} LongNameTranslates(name: Name, before: seq<uint8>, after: seq<uint8>)
    requires |name| >= NAME_SIZE && ZeroFree(name) && |before| < TWO_32
    ensures TranslatedName(InternalName(name, |before|), before + TableEntry(name) + after) == Some(name)
  {
    hide Digits, ParsedDigits, CString;
    var internal, filenames := InternalName(name, |before|), before + TableEntry(name) + after;
    assert internal[1..] == Digits(|before|);
    DigitsParse(|before|);
    assert filenames[|before|..] == name + [0] + after;
    CStringIs(name, after);
  }

  method TranslateFilename(name: Name, filenames: seq<uint8>) returns (ok: bool, full: Name)
    ensures ok <==> TranslatedName(name, filenames).Some?
    ensures ok ==> full == TranslatedName(name, filenames).value
  {
    full := [];
    if name == [] {
      return false, full;
    }
    if name[0] != SLASH {
      if name[|name| - 1] != SLASH {
        return false, full;
      }
      return true, name[..|name| - 1];
    }
    var offset := StringToUint(name[1..]);
    if offset.None? || offset.value >= |filenames| {
      return false, full;
    }
    return true, CString(filenames[offset.value..]);
  }
}
