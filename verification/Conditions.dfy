/** The condition algebra of basic-block successors: x86 condition codes 0 to 15, the
    unconditional condition, and the sentinel the code uses for "no condition". */
module Conditions {

  const INVALID_CONDITION: int := -1
  const CONDITION_TRUE: int := 16

  /** Any value the condition enumeration can take. */
  type Condition = c: int | -1 <= c <= 16 witness 0

  /** The conditions that correspond to a conditional branch instruction. */
  predicate IsConditionalBranch(c: Condition) { 0 <= c <= 15 }

  /** The processor flags that decide a conditional branch. */
  datatype Flags = Flags(carry: bool, parity: bool, zero: bool, sign: bool, overflow: bool)

  /** Whether a branch on `c` is taken, condition by condition, as the instruction set defines it. */
  predicate Holds(c: Condition, f: Flags)
  {
    if c == 0 then f.overflow                             // overflow
    else if c == 1 then !f.overflow                       // no overflow
    else if c == 2 then f.carry                           // below
    else if c == 3 then !f.carry                          // above or equal
    else if c == 4 then f.zero                            // equal
    else if c == 5 then !f.zero                           // not equal
    else if c == 6 then f.carry || f.zero                 // below or equal
    else if c == 7 then !f.carry && !f.zero               // above
    else if c == 8 then f.sign                            // signed
    else if c == 9 then !f.sign                           // not signed
    else if c == 10 then f.parity                         // parity even
    else if c == 11 then !f.parity                        // parity odd
    else if c == 12 then f.sign != f.overflow             // less
    else if c == 13 then f.sign == f.overflow             // greater or equal
    else if c == 14 then f.zero || f.sign != f.overflow   // less or equal
    else if c == 15 then !f.zero && f.sign == f.overflow  // greater
    else c == CONDITION_TRUE
  }

  /** The bit trick of the assembler: a condition code is negated by flipping its lowest bit. */
  function NegateConditionCode(c: Condition): (r: Condition)
    requires IsConditionalBranch(c)
    ensures IsConditionalBranch(r)
  {
    if c % 2 == 0 then c + 1 else c - 1
  }

  /** Inverts a condition; the unconditional one has no inverse. */
  function InvertCondition(c: Condition): (r: Condition)
    requires c != INVALID_CONDITION
    ensures r == INVALID_CONDITION <==> c == CONDITION_TRUE
  {
    if IsConditionalBranch(c) then NegateConditionCode(c) else INVALID_CONDITION
  }

  /** Flipping the lowest bit of the code negates its meaning under every valuation of the flags,
      and doing it twice gives the condition back. */
  lemma {:induction false} InversionNegates(c: Condition, f: Flags)
    requires IsConditionalBranch(c)
    ensures Holds(InvertCondition(c), f) == !Holds(c, f)
    ensures InvertCondition(InvertCondition(c)) == c
  {
  }
}
