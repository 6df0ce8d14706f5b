/**
 * Register names and `reg_index`, identical in myvmm.cpp and myvmm.cc.
 */
module Registers {
  import opened Int32
  import opened Text

  const NumRegisters: nat := 32

  /** `reg_names`: the symbolic MIPS name of each register, by index. */
  const RegNames: seq<string> := [
    "$zero", "$at", "$v0", "$v1", "$a0", "$a1", "$a2", "$a3",
    "$t0", "$t1", "$t2", "$t3", "$t4", "$t5", "$t6", "$t7",
    "$s0", "$s1", "$s2", "$s3", "$s4", "$s5", "$s6", "$s7",
    "$t8", "$t9", "$k0", "$k1", "$gp", "$sp", "$fp", "$ra"
  ]

  /** `$` followed by a digit: the form `reg_index` first hands to `std::stoi`. */
  predicate IsNumeralForm(tok: string) {
    |tok| > 1 && tok[0] == '$' && IsDigit(tok[1])
  }

  /** No symbolic name has the numeral form, and no two names are equal. */
  lemma RegNamesShape()
    ensures |RegNames| == NumRegisters
    ensures forall i :: 0 <= i < NumRegisters ==> RegNames[i] != []
    ensures forall i :: 0 <= i < NumRegisters ==> !IsNumeralForm(RegNames[i])
    ensures forall i, j :: 0 <= i < j < NumRegisters ==> RegNames[i] != RegNames[j]
  {
    DistinctRows0();
    DistinctRows1();
    DistinctRows2();
    DistinctRows3();
    DistinctRows4();
    DistinctRows5();
    DistinctRows6();
    DistinctRows7();
  }

  /** The names at positions `lo` to `hi - 1` differ from every later name. */
  predicate DistinctFrom(lo: nat, hi: nat)
    requires hi <= NumRegisters
  {
    forall i, j :: lo <= i < hi && i < j < NumRegisters ==> RegNames[i] != RegNames[j]
  }

  // The pairwise comparison of the table, in slices the solver handles one at a time.
  lemma DistinctRows0() ensures DistinctFrom(0, 1) { }
  lemma DistinctRows1() ensures DistinctFrom(1, 3) { }
  lemma DistinctRows2() ensures DistinctFrom(3, 5) { }
  lemma DistinctRows3() ensures DistinctFrom(5, 8) { }
  lemma DistinctRows4() ensures DistinctFrom(8, 11) { }
  lemma DistinctRows5() ensures DistinctFrom(11, 15) { }
  lemma DistinctRows6() ensures DistinctFrom(15, 20) { }
  lemma DistinctRows7() ensures DistinctFrom(20, 32) { }

  /** The table search of `reg_index`: the first position at or after `from` holding `tok`. */
  function NameIndex(tok: string, from: nat): (r: int)
    requires from <= NumRegisters
    ensures r == -1 <==> tok !in RegNames[from..]
    ensures r != -1 ==> from <= r < NumRegisters && RegNames[r] == tok && tok !in RegNames[from..r]
    decreases NumRegisters - from
  {
    if from == NumRegisters then -1
    else if RegNames[from] == tok then from
    else NameIndex(tok, from + 1)
  }

  /**
   * `reg_index`: a `$`-numeral gives its value whatever it is (no upper
   * bound); when `std::stoi` throws on it, the name table is searched as for
   * any other token; a token that is neither gives -1.
   */
  function RegisterIndex(tok: string): (r: int)
    ensures r >= -1
  {
    if tok == [] then -1
    else if IsNumeralForm(tok) && Stoi(tok[1..]).Some? then
      StoiOfDigits(tok[1..]);
      Stoi(tok[1..]).value
    else NameIndex(tok, 0)
  }

  /** Each symbolic name resolves to its position in the table. */
  lemma RegisterIndexOfName(i: nat)
    requires i < NumRegisters
    ensures RegisterIndex(RegNames[i]) == i
  {
    RegNamesShape();
    var tok := RegNames[i];
    assert RegisterIndex(tok) == NameIndex(tok, 0) by {
      assert tok != [] && !IsNumeralForm(tok);
    }
    var r := NameIndex(tok, 0);
    assert tok in RegNames[0..] by { assert RegNames[0..][i] == tok; }
    assert r == i;
  }

  /**
   * A `$`-numeral resolves to the value of its leading digits, with no range
   * check: `"$3x"` gives 3 and `"$40"` gives 40.
   */
  lemma {:induction false} RegisterIndexOfNumeral(n: nat, rest: string)
    requires n < Two31
    requires rest == [] || !IsDigit(rest[0])
    ensures RegisterIndex("$" + Decimal(n) + rest) == n
  {
    var d := Decimal(n);
    var body := d + rest;
    var tok := "$" + body;
    AppendAssoc("$", d, rest);
    assert tok[1..] == body && tok[1] == d[0];
    StoiDecimal(n, rest);
  }

  /**
   * Outside the numeral form, `reg_index` gives `i` exactly when the token
   * is `reg_names[i]`, and -1 for every other token, the empty one included.
   */
  lemma RegisterIndexByName(tok: string, i: int)
    requires !(IsNumeralForm(tok) && Stoi(tok[1..]).Some?)
    ensures RegisterIndex(tok) == -1 <==> tok !in RegNames
    ensures 0 <= i < NumRegisters ==> (RegisterIndex(tok) == i <==> tok == RegNames[i])
  {
    RegNamesShape();
    if tok == [] {
      assert forall k :: 0 <= k < NumRegisters ==> RegNames[k] != [];
    }
    assert RegNames[0..] == RegNames;
    if 0 <= i < NumRegisters && tok == RegNames[i] {
      RegisterIndexOfName(i);
    }
  }

  /**
   * A `$`-numeral whose digits overflow `int` (so `std::stoi` throws and the
   * exception is swallowed) is no register.
   */
  lemma RegisterIndexOverflow(n: nat)
    requires n >= Two31
    ensures RegisterIndex("$" + Decimal(n)) == -1
  {
    var tok := "$" + Decimal(n);
    assert tok[1..] == Decimal(n);
    assert tok[1] == Decimal(n)[0];
    StoiOutOfRange(n);
    RegNamesShape();
    assert tok !in RegNames;
    assert RegNames[0..] == RegNames;
  }

  /** `reg_index` as written: the numeral attempt, then the loop over the table. */
  method RegIndex(tok: string) returns (r: int)
    ensures r == RegisterIndex(tok)
  {
    if |tok| == 0 {
      return -1;
    }
    if tok[0] == '$' && |tok| > 1 && IsDigit(tok[1]) {
      var v := Stoi(tok[1..]);
      if v.Some? {
        return v.value;
      }
    }
    assert RegisterIndex(tok) == NameIndex(tok, 0);
    var i := 0;
    while i < NumRegisters
      invariant 0 <= i <= NumRegisters
      invariant NameIndex(tok, i) == NameIndex(tok, 0)
    {
      if tok == RegNames[i] {
        return i;
      }
      i := i + 1;
    }
    return -1;
  }
}
