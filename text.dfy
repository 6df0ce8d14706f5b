/**
 * The text handling both versions of the VM share: the `std::stoi` parse
 * of a decimal literal, comment stripping and trimming of a source line,
 * and the split of a line into a mnemonic and its comma-separated operands.
 */
module Text {
  import opened Int32

  datatype Option<T> = None | Some(value: T)

  /** Growing a prefix by one element, for loops that walk a sequence. */
  lemma PrefixSnoc<T>(s: seq<T>, i: nat)
    requires i < |s|
    ensures s[..i + 1] == s[..i] + [s[i]]
  {
  }

  lemma SplitConcat<T>(a: seq<T>, b: seq<T>)
    ensures (a + b)[..|a|] == a && (a + b)[|a|..] == b
  {
  }

  lemma AppendAssoc<T>(a: seq<T>, b: seq<T>, c: seq<T>)
    ensures a + (b + c) == (a + b) + c
  {
  }

  lemma WholePrefix<T>(s: seq<T>)
    ensures s[..|s|] == s
  {
  }

  /** `f` applied to every element of `s`, in order. */
  function Map<A, B>(f: A -> B, s: seq<A>): (r: seq<B>)
    ensures |r| == |s|
    ensures forall i :: 0 <= i < |s| ==> r[i] == f(s[i])
  {
    seq(|s|, i requires 0 <= i < |s| => f(s[i]))
  }

  lemma MapPair<A, B>(f: A -> B, s: seq<A>)
    requires |s| == 2
    ensures Map(f, s) == [f(s[0]), f(s[1])]
  {
  }

  lemma MapTriple<A, B>(f: A -> B, s: seq<A>)
    requires |s| == 3
    ensures Map(f, s) == [f(s[0]), f(s[1]), f(s[2])]
  {
  }

  lemma MapAppend<A, B>(f: A -> B, a: seq<A>, b: seq<A>)
    ensures Map(f, a + b) == Map(f, a) + Map(f, b)
  {
    assert forall i :: 0 <= i < |a + b| ==> Map(f, a + b)[i] == (Map(f, a) + Map(f, b))[i];
  }

  /** The characters `find_first_not_of(" \t\r\n")` skips when trimming. */
  predicate IsTrimChar(c: char) {
    c == ' ' || c == '\t' || c == '\r' || c == '\n'
  }

  /** C `isspace` in the "C" locale, used by `>>` and by `std::stoi`. */
  predicate IsSpace(c: char) {
    IsTrimChar(c) || c == '\U{000B}' || c == '\U{000C}'
  }

  predicate IsDigit(c: char) {
    '0' <= c <= '9'
  }

  /** No leading and no trailing trim character. */
  predicate IsTrimmed(s: string) {
    s == [] || (!IsTrimChar(s[0]) && !IsTrimChar(s[|s| - 1]))
  }

  /** Position of the first `c` in `s`, as `std::string::find` gives it. */
  function IndexOf(s: string, c: char): (i: nat)
    requires c in s
    ensures i < |s| && s[i] == c && c !in s[..i]
  {
    if s[0] == c then 0 else 1 + IndexOf(s[1..], c)
  }

  // ---------------------------------------------------------------------
  // Trimming and comment stripping

  /** Drops the leading trim characters. */
  function TrimLeft(s: string): (r: string)
    ensures |r| <= |s| && r == s[|s| - |r|..]
    ensures r == [] || !IsTrimChar(r[0])
  {
    if s != [] && IsTrimChar(s[0]) then TrimLeft(s[1..]) else s
  }

  /** What `TrimLeft` drops is all trim characters. */
  lemma {:induction false} TrimLeftDrops(s: string)
    ensures forall k :: 0 <= k < |s| - |TrimLeft(s)| ==> IsTrimChar(s[k])
  {
    if s != [] && IsTrimChar(s[0]) {
      TrimLeftDrops(s[1..]);
    }
  }

  /** Drops the trailing trim characters. */
  function TrimRight(s: string): (r: string)
    ensures |r| <= |s| && r == s[..|r|]
    ensures r == [] || !IsTrimChar(r[|r| - 1])
  {
    if s != [] && IsTrimChar(s[|s| - 1]) then TrimRight(s[..|s| - 1]) else s
  }

  /** What `TrimRight` drops is all trim characters. */
  lemma {:induction false} TrimRightDropsTail(s: string)
    ensures forall k :: |TrimRight(s)| <= k < |s| ==> IsTrimChar(s[k])
  {
    if s != [] && IsTrimChar(s[|s| - 1]) {
      TrimRightDropsTail(s[..|s| - 1]);
    }
  }

  /**
   * `s.substr(first, last - first + 1)` with `first`/`last` the first and
   * last positions not in " \t\r\n"; empty when there are none.
   */
  function Trim(s: string): string {
    TrimRight(TrimLeft(s))
  }

  /** The trimmed text starts and ends with no trim character. */
  lemma TrimIsTrimmed(s: string)
    ensures IsTrimmed(Trim(s))
  {
    var l := TrimLeft(s);
    var r := TrimRight(l);
    if r != [] {
      assert r[0] == l[0];
    }
  }

  /** Trimming keeps one contiguous piece of the text, the part between the outer blanks. */
  lemma {:induction false} TrimInfix(s: string)
    ensures var lo := |s| - |TrimLeft(s)|; var hi := lo + |Trim(s)|;
      lo <= hi <= |s| && Trim(s) == s[lo..hi]
  {
    TrimRightSlice(TrimLeft(s), |s| - |TrimLeft(s)|, s);
  }

  /** What trimming removes, on either side, is made of trim characters only. */
  lemma {:induction false} TrimDropsOnlyBlanks(s: string)
    ensures var lo := |s| - |TrimLeft(s)|; var hi := lo + |Trim(s)|;
      && (forall k :: 0 <= k < lo ==> IsTrimChar(s[k]))
      && (forall k :: hi <= k < |s| ==> IsTrimChar(s[k]))
  {
    var l := TrimLeft(s);
    TrimLeftDrops(s);
    TrimRightDrops(l, |s| - |l|, s);
  }

  /** `TrimRight` of the suffix of `s` that starts at `lo` is a slice of `s`. */
  lemma {:induction false} TrimRightSlice(l: string, lo: nat, s: string)
    requires lo <= |s| && l == s[lo..]
    ensures lo + |TrimRight(l)| <= |s| && TrimRight(l) == s[lo..lo + |TrimRight(l)|]
  {
  }

  /** What `TrimRight` drops from the suffix of `s` that starts at `lo`. */
  lemma {:induction false} TrimRightDrops(l: string, lo: nat, s: string)
    requires lo <= |s| && l == s[lo..]
    ensures forall k :: lo + |TrimRight(l)| <= k < |s| ==> IsTrimChar(s[k])
  {
    var hi := lo + |TrimRight(l)|;
    TrimRightDropsTail(l);
    forall k | hi <= k < |s|
      ensures IsTrimChar(s[k])
    {
      assert s[k] == l[k - lo];
    }
  }

  lemma TrimOfTrimmed(s: string)
    requires IsTrimmed(s)
    ensures Trim(s) == s
  {
  }

  /** A character absent from `s` is absent from its trimmed form. */
  lemma TrimKeepsOut(s: string, c: char)
    requires c !in s
    ensures c !in Trim(s)
  {
    TrimInfix(s);
  }

  /** Leading trim characters do not change the trimmed text. */
  lemma TrimSkipsLeading(c: char, s: string)
    requires IsTrimChar(c)
    ensures Trim([c] + s) == Trim(s)
  {
    assert ([c] + s)[1..] == s;
  }

  /** The text before the first `#`, the whole line when there is none. */
  function StripComment(line: string): (r: string)
    ensures '#' !in r
    ensures |r| <= |line| && r == line[..|r|]
    ensures '#' !in line ==> r == line
    ensures '#' in line ==> |r| < |line| && line[|r|] == '#'
  {
    if '#' in line then line[..IndexOf(line, '#')] else line
  }

  /**
   * The loaders' clean-up of one source line (myvmm.cpp:165-170,
   * myvmm.cc:73-80): drop the comment, then trim. An empty result is a line
   * that is skipped.
   */
  function CleanLine(line: string): (r: string)
    ensures '#' !in r && IsTrimmed(r)
  {
    var s := StripComment(line);
    TrimKeepsOut(s, '#');
    Trim(s)
  }

  /** Cleaning a cleaned line changes nothing. */
  lemma CleanLineIdempotent(line: string)
    ensures CleanLine(CleanLine(line)) == CleanLine(line)
  {
    var r := CleanLine(line);
    assert StripComment(r) == r;
    TrimOfTrimmed(r);
  }

  /** A line without `#` cleans to its trimmed text. */
  lemma CleanLineNoComment(line: string)
    requires '#' !in line
    ensures CleanLine(line) == Trim(line)
  {
  }

  /** A comment is cut at its first `#`: the line cleans to the trimmed code before it. */
  lemma CleanLineOfComment(code: string, comment: string)
    requires '#' !in code
    ensures CleanLine(code + "#" + comment) == Trim(code)
  {
    var line := code + "#" + comment;
    assert line[|code|] == '#' && line[..|code|] == code;
    IndexOfFirst(line, '#', |code|);
  }

  /** A line without comment and outer blanks is kept as it is. */
  lemma CleanLineOfClean(line: string)
    requires '#' !in line && IsTrimmed(line)
    ensures CleanLine(line) == line
  {
    TrimOfTrimmed(line);
  }

  // ---------------------------------------------------------------------
  // Decimal literals: the part of `std::stoi` the VM relies on

  function DigitValue(c: char): (v: nat)
    requires IsDigit(c)
    ensures v < 10
  {
    (c as int - '0' as int) as nat
  }

  function DigitChar(v: nat): (c: char)
    requires v < 10
    ensures IsDigit(c) && DigitValue(c) == v
  {
    ('0' as int + v) as char
  }

  predicate AllDigits(d: string) {
    forall k :: 0 <= k < |d| ==> IsDigit(d[k])
  }

  /** The value of a run of decimal digits, most significant first. */
  function DigitsValue(d: string): nat
    requires AllDigits(d)
  {
    if d == [] then 0 else 10 * DigitsValue(d[..|d| - 1]) + DigitValue(d[|d| - 1])
  }

  /** The longest prefix of `s` made of decimal digits. */
  function LeadingDigits(s: string): (d: string)
    ensures AllDigits(d) && |d| <= |s| && d == s[..|d|]
    ensures |d| == |s| || !IsDigit(s[|d|])
  {
    if s != [] && IsDigit(s[0]) then [s[0]] + LeadingDigits(s[1..]) else []
  }

  /** Drops the leading `isspace` characters, as `strtol` and `>>` do. */
  function SkipSpace(s: string): (r: string)
    ensures |r| <= |s| && r == s[|s| - |r|..]
    ensures r == [] || !IsSpace(r[0])
  {
    if s != [] && IsSpace(s[0]) then SkipSpace(s[1..]) else s
  }

  /** What `SkipSpace` drops is all `isspace`. */
  lemma {:induction false} SkipSpaceDropsSpace(s: string)
    ensures forall k :: 0 <= k < |s| - |SkipSpace(s)| ==> IsSpace(s[k])
  {
    if s != [] && IsSpace(s[0]) {
      SkipSpaceDropsSpace(s[1..]);
    }
  }

  /**
   * `std::stoi(s)` in base 10: skip white space, an optional sign, then the
   * longest run of digits; `None` stands for the exception it throws when
   * there is no digit (`invalid_argument`) or the value does not fit an
   * `int` (`out_of_range`). Text after the digits is ignored.
   */
  function Stoi(s: string): (r: Option<i32>)
  {
    var t := SkipSpace(s);
    if t != [] && (t[0] == '-' || t[0] == '+') then StoiDigits(t[0] == '-', t[1..])
    else StoiDigits(false, t)
  }

  /** The digit run at the start of `u`, negated when `negative`. */
  function StoiDigits(negative: bool, u: string): (r: Option<i32>)
  {
    var d := LeadingDigits(u);
    var v: int := if negative then -(DigitsValue(d) as int) else DigitsValue(d);
    if d != [] && InRange(v) then Some(v) else None
  }

  /** The decimal numeral of `n`, without leading zeros. */
  function Decimal(n: nat): (d: string)
    ensures d != [] && AllDigits(d)
  {
    if n < 10 then [DigitChar(n)] else Decimal(n / 10) + [DigitChar(n % 10)]
  }

  lemma {:induction false} DecimalValue(n: nat)
    ensures DigitsValue(Decimal(n)) == n
  {
    if n >= 10 {
      var d := Decimal(n);
      assert d[..|d| - 1] == Decimal(n / 10);
      DecimalValue(n / 10);
    }
  }

  /** The digit run of a numeral followed by a non-digit is the numeral. */
  lemma {:induction false} LeadingDigitsOf(d: string, rest: string)
    requires AllDigits(d)
    requires rest == [] || !IsDigit(rest[0])
    ensures LeadingDigits(d + rest) == d
  {
    if d != [] {
      assert (d + rest)[1..] == d[1..] + rest;
      LeadingDigitsOf(d[1..], rest);
    }
  }

  /** Text that starts with no `isspace` character is not skipped into. */
  lemma SkipNoSpace(s: string)
    requires s == [] || !IsSpace(s[0])
    ensures SkipSpace(s) == s
  {
  }

  /** The value `std::stoi` gives a digit run followed by a non-digit. */
  lemma {:induction false} StoiDigitsOf(negative: bool, d: string, rest: string)
    requires d != [] && AllDigits(d)
    requires rest == [] || !IsDigit(rest[0])
    ensures var v: int := if negative then -(DigitsValue(d) as int) else DigitsValue(d);
      StoiDigits(negative, d + rest) == if InRange(v) then Some(v) else None
  {
    LeadingDigitsOf(d, rest);
  }

  /**
   * `std::stoi` reads back a numeral in range, ignoring what follows it
   * (`stoi("3x") == 3`).
   */
  lemma {:induction false} StoiDecimal(n: nat, rest: string)
    requires n < Two31
    requires rest == [] || !IsDigit(rest[0])
    ensures Stoi(Decimal(n) + rest) == Some(n)
  {
    var d := Decimal(n);
    var s := d + rest;
    assert s[0] == d[0] && IsDigit(d[0]);
    SkipNoSpace(s);
    StoiDigitsOf(false, d, rest);
    DecimalValue(n);
  }

  /** A minus sign negates the numeral; the range reaches down to -2^31. */
  lemma {:induction false} StoiNegative(n: nat, rest: string)
    requires 0 < n <= Two31
    requires rest == [] || !IsDigit(rest[0])
    ensures Stoi("-" + Decimal(n) + rest) == Some(-(n as int))
  {
    var d := Decimal(n);
    var s := "-" + d + rest;
    assert s[0] == '-' && s[1..] == d + rest;
    SkipNoSpace(s);
    StoiDigitsOf(true, d, rest);
    DecimalValue(n);
  }

  /** A numeral too large for `int` makes `std::stoi` throw. */
  lemma {:induction false} StoiOutOfRange(n: nat)
    requires n >= Two31
    ensures Stoi(Decimal(n)) == None
  {
    var d := Decimal(n);
    assert IsDigit(d[0]);
    SkipNoSpace(d);
    assert d + [] == d;
    StoiDigitsOf(false, d, []);
    DecimalValue(n);
  }

  /** Text that begins with a digit has no sign: its value, if any, is non-negative. */
  lemma StoiOfDigits(s: string)
    requires s != [] && IsDigit(s[0])
    ensures Stoi(s).Some? ==> Stoi(s).value >= 0
  {
    SkipNoSpace(s);
  }

  /** Text that does not begin with a digit, a sign or blanks has no value. */
  lemma StoiNoDigit(s: string)
    requires s == [] || !(IsDigit(s[0]) || IsSpace(s[0]) || s[0] == '-' || s[0] == '+')
    ensures Stoi(s) == None
  {
  }

  // ---------------------------------------------------------------------
  // Splitting a line into mnemonic and operands

  /** One decoded instruction line: the mnemonic and its operand tokens. */
  datatype Instruction = Instruction(mnemonic: string, operands: seq<string>)

  /** The leading run of non-`isspace` characters, as `iss >> instr` reads it. */
  function TakeToken(s: string): (w: string)
    ensures |w| <= |s| && w == s[..|w|]
    ensures forall k :: 0 <= k < |w| ==> !IsSpace(w[k])
    ensures |w| == |s| || IsSpace(s[|w|])
  {
    if s != [] && !IsSpace(s[0]) then [s[0]] + TakeToken(s[1..]) else []
  }

  /** What `std::getline` reads: the text up to the first newline. */
  function UpToNewline(s: string): (r: string)
    ensures '\n' !in r && |r| <= |s| && r == s[..|r|]
    ensures '\n' in s ==> |r| < |s| && s[|r|] == '\n'
    ensures '\n' !in s ==> r == s
  {
    if '\n' in s then s[..IndexOf(s, '\n')] else s
  }

  /** A field kept as an operand only when it is not blank. */
  function Keep(field: string): seq<string> {
    if field == [] then [] else [field]
  }

  /** An operand token: non-empty, trimmed, and free of commas. */
  predicate IsOperand(t: string) {
    t != [] && IsTrimmed(t) && ',' !in t
  }

  /**
   * The operands of the text after the mnemonic (myvmm.cpp:190-202,
   * myvmm.cc:94-107): the comma-separated fields, each trimmed, the blank
   * ones dropped. `std::getline` yields no field after a trailing comma; the
   * empty field this definition produces there is dropped all the same.
   */
  function Operands(s: string): (r: seq<string>)
    decreases |s|
  {
    if ',' in s then
      var i := IndexOf(s, ',');
      Keep(Trim(s[..i])) + Operands(s[i + 1..])
    else
      Keep(Trim(s))
  }

  /** Every operand is non-empty, trimmed and free of commas. */
  lemma {:induction false} OperandsWellFormed(s: string)
    ensures forall k :: 0 <= k < |Operands(s)| ==> IsOperand(Operands(s)[k])
    decreases |s|
  {
    if ',' in s {
      var i := IndexOf(s, ',');
      TrimKeepsOut(s[..i], ',');
      OperandsWellFormed(s[i + 1..]);
    } else {
      TrimKeepsOut(s, ',');
    }
  }

  /** Leading blanks before the first field do not change the operands. */
  lemma OperandsSkipLeading(c: char, s: string)
    requires IsTrimChar(c)
    ensures Operands([c] + s) == Operands(s)
  {
    var t := [c] + s;
    assert t[1..] == s;
    if ',' in s {
      var i := IndexOf(s, ',');
      assert IndexOf(t, ',') == i + 1;
      assert t[..i + 1] == [c] + s[..i];
      assert t[i + 2..] == s[i + 1..];
      TrimSkipsLeading(c, s[..i]);
    } else {
      TrimSkipsLeading(c, s);
    }
  }

  /**
   * The loop of myvmm.cpp:194-202 (and myvmm.cc:98-107): read the fields one
   * by one and push the non-blank trimmed ones.
   */
  method SplitOperands(token: string) returns (args: seq<string>)
    ensures args == Operands(token)
  {
    args := [];
    var rest := token;
    while ',' in rest
      invariant args + Operands(rest) == Operands(token)
      decreases |rest|
    {
      var i := IndexOf(rest, ',');
      var arg := Trim(rest[..i]);
      OperandsStep(args, rest);
      if arg != [] {
        args := args + [arg];
      }
      rest := rest[i + 1..];
    }
    var arg := Trim(rest);
    OperandsLast(args, rest);
    if arg != [] {
      args := args + [arg];
    }
  }

  /** The last field of the loop, after the last comma. */
  lemma {:induction false} OperandsLast(args: seq<string>, rest: string)
    requires ',' !in rest
    ensures var arg := Trim(rest);
      args + Operands(rest) == if arg != [] then args + [arg] else args
  {
    KeepAppend(args, Trim(rest), []);
    assert Operands(rest) == Keep(Trim(rest)) + [];
  }

  /** One field of the loop: the operands of `rest` are its first field's, then the remainder's. */
  lemma {:induction false} OperandsStep(args: seq<string>, rest: string)
    requires ',' in rest
    ensures var i := IndexOf(rest, ','); var arg := Trim(rest[..i]);
      args + Operands(rest) == (if arg != [] then args + [arg] else args) + Operands(rest[i + 1..])
  {
    var i := IndexOf(rest, ',');
    KeepAppend(args, Trim(rest[..i]), Operands(rest[i + 1..]));
  }

  lemma KeepAppend(args: seq<string>, arg: string, tail: seq<string>)
    ensures args + (Keep(arg) + tail) == (if arg != [] then args + [arg] else args) + tail
  {
    if arg == [] {
      assert Keep(arg) + tail == tail;
    }
  }

  /**
   * `iss >> instr` followed by the operand split: the mnemonic is the first
   * `isspace`-delimited word, the operands come from the rest of the line.
   * An all-blank line gives an empty mnemonic.
   */
  function Decode(line: string): (ins: Instruction)
    ensures forall k :: 0 <= k < |ins.operands| ==> IsOperand(ins.operands[k])
    ensures forall k :: 0 <= k < |ins.mnemonic| ==> !IsSpace(ins.mnemonic[k])
  {
    var t := SkipSpace(line);
    var m := TakeToken(t);
    var rest := UpToNewline(t[|m|..]);
    OperandsWellFormed(rest);
    Instruction(m, Operands(rest))
  }

  /**
   * The mnemonic is empty exactly when the whole line is `isspace`; the
   * loaders' trim removes only space, tab, CR and LF, so a line made of
   * vertical tabs and form feeds gets this far.
   */
  lemma BlankMnemonic(line: string)
    ensures Decode(line).mnemonic == [] <==> forall k :: 0 <= k < |line| ==> IsSpace(line[k])
  {
    var t := SkipSpace(line);
    SkipSpaceDropsSpace(line);
    if t != [] {
      assert TakeToken(t) != [];
      assert !IsSpace(line[|line| - |t|]);
    }
  }

  /** The decoding as the loops of both versions do it, operands split by `SplitOperands`. */
  method ParseLine(line: string) returns (ins: Instruction)
    ensures ins == Decode(line)
  {
    var t := SkipSpace(line);
    var m := TakeToken(t);
    var token := UpToNewline(t[|m|..]);
    var args := SplitOperands(token);
    ins := Instruction(m, args);
  }

  // ---------------------------------------------------------------------
  // The canonical text of an instruction, and the round trip through it

  /** Operands separated by ", ", as programs are written. */
  function Join(ops: seq<string>): string {
    if |ops| == 0 then ""
    else if |ops| == 1 then ops[0]
    else ops[0] + ", " + Join(ops[1..])
  }

  /** `mnemonic op1, op2, ...` */
  function Format(ins: Instruction): string {
    ins.mnemonic + " " + Join(ins.operands)
  }

  /** An instruction that its text describes faithfully. */
  predicate WellFormed(ins: Instruction) {
    && ins.mnemonic != []
    && (forall k :: 0 <= k < |ins.mnemonic| ==> !IsSpace(ins.mnemonic[k]) && ins.mnemonic[k] != '#')
    && (forall k :: 0 <= k < |ins.operands| ==>
          IsOperand(ins.operands[k]) && '\n' !in ins.operands[k] && '#' !in ins.operands[k])
  }

  lemma {:induction false} JoinNoChar(ops: seq<string>, c: char)
    requires c != ',' && c != ' '
    requires forall k :: 0 <= k < |ops| ==> c !in ops[k]
    ensures c !in Join(ops)
  {
    if |ops| > 1 {
      JoinNoChar(ops[1..], c);
    }
  }

  /** Splitting the operands back out of their joined text gives them back. */
  lemma {:induction false} OperandsOfJoin(ops: seq<string>)
    requires forall k :: 0 <= k < |ops| ==> IsOperand(ops[k])
    ensures Operands(Join(ops)) == ops
  {
    if |ops| == 1 {
      TrimOfTrimmed(ops[0]);
    } else if |ops| > 1 {
      var j := Join(ops[1..]);
      var s := Join(ops);
      JoinHead(ops);
      assert Operands(s) == Keep(Trim(ops[0])) + Operands([' '] + j);
      TrimOfTrimmed(ops[0]);
      OperandsSkipLeading(' ', j);
      OperandsOfJoin(ops[1..]);
      assert ops == [ops[0]] + ops[1..];
    }
  }

  /** The first comma of the joined text ends the first operand. */
  lemma JoinHead(ops: seq<string>)
    requires |ops| > 1 && ',' !in ops[0]
    ensures var s, i := Join(ops), |ops[0]|;
      && i < |s| && ',' in s && IndexOf(s, ',') == i
      && s[..i] == ops[0] && s[i + 1..] == [' '] + Join(ops[1..])
  {
    var s, i, t := Join(ops), |ops[0]|, Join(ops[1..]);
    var tail := [',', ' '] + t;
    assert s == ops[0] + tail;
    SplitConcat(ops[0], tail);
    assert tail[0] == ',' && tail[1..] == [' '] + t;
    IndexOfFirst(s, ',', i);
  }

  lemma IndexOfFirst(s: string, c: char, i: nat)
    requires i < |s| && s[i] == c && c !in s[..i]
    ensures IndexOf(s, c) == i
  {
  }

  /** Decoding the canonical text of an instruction gives it back. */
  lemma DecodeFormat(ins: Instruction)
    requires WellFormed(ins)
    ensures Decode(Format(ins)) == ins
  {
    var m := ins.mnemonic;
    var j := Join(ins.operands);
    var line := Format(ins);
    assert SkipSpace(line) == line;
    TakeTokenOf(m, " " + j);
    assert line == m + (" " + j);
    assert line[|m|..] == " " + j;
    JoinNoChar(ins.operands, '\n');
    assert '\n' !in " " + j;
    assert UpToNewline(" " + j) == " " + j;
    assert " " + j == [' '] + j;
    OperandsSkipLeading(' ', j);
    OperandsOfJoin(ins.operands);
  }

  lemma {:induction false} TakeTokenOf(w: string, rest: string)
    requires forall k :: 0 <= k < |w| ==> !IsSpace(w[k])
    requires rest == [] || IsSpace(rest[0])
    ensures TakeToken(w + rest) == w
  {
    if w != [] {
      assert (w + rest)[1..] == w[1..] + rest;
      TakeTokenOf(w[1..], rest);
    }
  }

  /**
   * The canonical text survives the loader's clean-up, so a program written
   * in it loads and decodes to the instructions it spells.
   */
  lemma CleanFormat(ins: Instruction)
    requires WellFormed(ins)
    ensures Decode(CleanLine(Format(ins))) == ins
  {
    var line := Format(ins);
    var j := Join(ins.operands);
    JoinNoChar(ins.operands, '#');
    assert '#' !in line by {
      assert line == ins.mnemonic + " " + j;
      assert forall k :: 0 <= k < |line| ==> line[k] != '#' by {
        forall k | 0 <= k < |line| ensures line[k] != '#' {
          if k > |ins.mnemonic| {
            assert line[k] == j[k - |ins.mnemonic| - 1];
          }
        }
      }
    }
    if ins.operands == [] {
      assert line == ins.mnemonic + [' '];
      assert TrimRight(line) == ins.mnemonic;
      assert CleanLine(line) == ins.mnemonic;
      assert Decode(ins.mnemonic) == ins by {
        assert SkipSpace(ins.mnemonic) == ins.mnemonic;
        TakeTokenOf(ins.mnemonic, []);
        assert ins.mnemonic + [] == ins.mnemonic;
      }
    } else {
      JoinLast(ins.operands);
      assert IsTrimmed(line);
      CleanLineOfClean(line);
      DecodeFormat(ins);
    }
  }

  lemma {:induction false} JoinLast(ops: seq<string>)
    requires |ops| > 0 && ops[|ops| - 1] != []
    ensures Join(ops) != [] && Join(ops)[|Join(ops)| - 1] == ops[|ops| - 1][|ops[|ops| - 1]| - 1]
  {
    if |ops| > 1 {
      JoinLast(ops[1..]);
    }
  }
}
