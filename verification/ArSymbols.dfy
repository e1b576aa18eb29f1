/** The symbol table of an archive while files are added to it: strong definitions win over weak ones, and earlier
    ones over later ones. */
module ArSymbols {
  import opened Types

  type Name = seq<uint8>

  /** A symbol that a file defines. */
  datatype Definition = Definition(file: nat, name: Name, weak: bool)

  /** The file of the first definition of a name of the given kind. */
  function First(defs: seq<Definition>, name: Name, weak: bool): Option<nat>
  {
    if defs == [] then None
    else if defs[0].name == name && defs[0].weak == weak then Some(defs[0].file)
    else First(defs[1..], name, weak)
  }

  /** The file that a name belongs to: that of its first strong definition, or else of its first weak one. */
  function Winner(defs: seq<Definition>, name: Name): Option<nat>
  {
    if First(defs, name, false).Some? then First(defs, name, false) else First(defs, name, true)
  }

  function Lookup(m: map<Name, nat>, name: Name): Option<nat> { if name in m then Some(m[name]) else None }

  /** The tables after a run of definitions; the weak symbols are those without a strong definition. */
  ghost predicate TablesOf(defs: seq<Definition>, symbols: map<Name, nat>, weakSymbols: map<Name, nat>)
  {
    && (forall name :: Lookup(symbols, name) == Winner(defs, name))
    && (forall name :: Lookup(weakSymbols, name) == if First(defs, name, false).Some? then None else Winner(defs, name))
  }

  lemma {:induction false} FirstOfMore(defs: seq<Definition>, d: Definition, name: Name, weak: bool)
    ensures First(defs + [d], name, weak) ==
      if First(defs, name, weak).Some? then First(defs, name, weak)
      else if d.name == name && d.weak == weak then Some(d.file) else None
  {
    if defs != [] {
      assert (defs + [d])[1..] == defs[1..] + [d];
      FirstOfMore(defs[1..], d, name, weak);
    }
  }

  /** All definitions are those of the first `n` files. */
  predicate DefinedBy(defs: seq<Definition>, n: nat) { forall i :: 0 <= i < |defs| ==> defs[i].file < n }

  lemma {:induction false} FirstIsDefined(defs: seq<Definition>, name: Name, weak: bool, n: nat)
    requires DefinedBy(defs, n) && First(defs, name, weak).Some?
    ensures First(defs, name, weak).value < n
  {
    if !(defs[0].name == name && defs[0].weak == weak) {
      FirstIsDefined(defs[1..], name, weak, n);
    }
  }

  /** Symbols belong to files that define them. */
  lemma {:induction false} SymbolsAreDefined(defs: seq<Definition>, symbols: map<Name, nat>,
                                             weakSymbols: map<Name, nat>, n: nat, name: Name)
    requires TablesOf(defs, symbols, weakSymbols) && DefinedBy(defs, n) && name in symbols
    ensures symbols[name] < n
  {
    assert Lookup(symbols, name) == Winner(defs, name);
    if First(defs, name, false).Some? { FirstIsDefined(defs, name, false, n); }
    if First(defs, name, true).Some? { FirstIsDefined(defs, name, true, n); }
  }

  /** The definition at `i` is the first of its kind of a name. */
  predicate IsFirstOf(defs: seq<Definition>, name: Name, weak: bool, i: int)
  {
    && 0 <= i < |defs| && defs[i].name == name && defs[i].weak == weak
    && forall j :: 0 <= j < i ==> !(defs[j].name == name && defs[j].weak == weak)
  }

  lemma {:induction false} FirstComesFirst(defs: seq<Definition>, name: Name, weak: bool)
    ensures First(defs, name, weak).None? ==>
      forall i :: 0 <= i < |defs| ==> !(defs[i].name == name && defs[i].weak == weak)
    ensures First(defs, name, weak).Some? ==>
      exists i :: IsFirstOf(defs, name, weak, i) && defs[i].file == First(defs, name, weak).value
  {
    if defs != [] {
      if defs[0].name == name && defs[0].weak == weak {
        assert IsFirstOf(defs, name, weak, 0);
      } else {
        var rest := defs[1..];
        FirstComesFirst(rest, name, weak);
        assert forall i :: 0 < i < |defs| ==> defs[i] == rest[i - 1];
        if First(rest, name, weak).Some? {
          var i :| IsFirstOf(rest, name, weak, i) && rest[i].file == First(rest, name, weak).value;
          assert IsFirstOf(defs, name, weak, i + 1);
        }
      }
    }
  }

  /** A name is in the table exactly if some file defines it; it belongs to the file of its first strong
      definition, or of its first weak one if it has no strong one. */
  lemma {:induction false} StrongBeatsWeak(defs: seq<Definition>, symbols: map<Name, nat>, weakSymbols: map<Name, nat>,
                                           name: Name)
    requires TablesOf(defs, symbols, weakSymbols)
    ensures name in symbols <==> exists i :: 0 <= i < |defs| && defs[i].name == name
    ensures name in symbols && (exists i :: 0 <= i < |defs| && defs[i].name == name && !defs[i].weak) ==>
      exists i :: IsFirstOf(defs, name, false, i) && symbols[name] == defs[i].file
    ensures name in symbols && (forall i :: 0 <= i < |defs| && defs[i].name == name ==> defs[i].weak) ==>
      exists i :: IsFirstOf(defs, name, true, i) && symbols[name] == defs[i].file
  {
    assert Lookup(symbols, name) == Winner(defs, name);
    FirstComesFirst(defs, name, false);
    FirstComesFirst(defs, name, true);
  }

  class SymbolTable {
    var symbols: map<Name, nat>
    var weakSymbols: map<Name, nat>
    /** All definitions so far. */
    ghost var history: seq<Definition>

    ghost predicate Valid()
      reads this
    {
      TablesOf(history, symbols, weakSymbols)
    }

    constructor ()
      ensures Valid() && history == [] && symbols == map[]
    {
      symbols, weakSymbols, history := map[], map[], [];
    }

    constructor Copy(other: SymbolTable)
      requires other.Valid()
      ensures Valid() && history == other.history && symbols == other.symbols
    {
      symbols, weakSymbols, history := other.symbols, other.weakSymbols, other.history;
    }

    /** Adds a definition; returns whether the name was defined before. */
    method UpdateSymbolTable(file: nat, name: Name, isWeak: bool) returns (duplicate: bool)
      requires Valid()
      modifies this
      ensures Valid() && history == old(history) + [Definition(file, name, isWeak)]
      ensures duplicate <==> name in old(symbols)
    {
      duplicate := name in symbols;
      if isWeak {
        // Weak or not, what is there stays.
        if name !in symbols {
          symbols := symbols[name := file];
          weakSymbols := weakSymbols[name := file];
        }
      } else if name !in symbols {
        symbols := symbols[name := file];
      } else if name in weakSymbols {
        // A strong symbol replaces a weak one.
        symbols := symbols[name := file];
        weakSymbols := weakSymbols - {name};
      }
      history := history + [Definition(file, name, isWeak)];
      forall n
        ensures Lookup(symbols, n) == Winner(history, n)
        ensures Lookup(weakSymbols, n) == if First(history, n, false).Some? then None else Winner(history, n)
      {
        OneMoreDefinition(old(history), Definition(file, name, isWeak), old(symbols), old(weakSymbols), n);
      }
    }
  }

  /** What one more definition does to the entry of a name. */
  lemma {:induction false} OneMoreDefinition(defs: seq<Definition>, d: Definition, symbols: map<Name, nat>,
                                             weakSymbols: map<Name, nat>, n: Name)
    requires TablesOf(defs, symbols, weakSymbols)
    ensures d.name in weakSymbols ==> d.name in symbols && First(defs, d.name, false).None?
    ensures d.name in symbols && d.name !in weakSymbols ==> First(defs, d.name, false).Some?
    ensures Lookup(symbols, n) == Winner(defs, n)
    ensures Lookup(weakSymbols, n) == if First(defs, n, false).Some? then None else Winner(defs, n)
    ensures n != d.name ==>
      Winner(defs + [d], n) == Winner(defs, n) && First(defs + [d], n, false) == First(defs, n, false)
    ensures n == d.name && d.weak ==>
      && First(defs + [d], n, false) == First(defs, n, false)
      && Winner(defs + [d], n) == if Winner(defs, n).Some? then Winner(defs, n) else Some(d.file)
    ensures n == d.name && !d.weak ==>
      && First(defs + [d], n, false).Some?
      && Winner(defs + [d], n) == if First(defs, n, false).Some? then First(defs, n, false) else Some(d.file)
  {
    hide First;
    FirstOfMore(defs, d, n, false);
    FirstOfMore(defs, d, n, true);
    assert Lookup(symbols, n) == Winner(defs, n);
    assert Lookup(symbols, d.name) == Winner(defs, d.name);
    assert Lookup(weakSymbols, n) == if First(defs, n, false).Some? then None else Winner(defs, n);
    assert Lookup(weakSymbols, d.name) == if First(defs, d.name, false).Some? then None else Winner(defs, d.name);
  }
}
