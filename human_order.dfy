/** `humanCompare` (inventory.cpp): natural ("human") ordering of item
    names, in which a maximal run of digits compares by its numeric value.
    The specification reads a name as a sequence of tokens, one per
    non-digit character and one per maximal digit run, and orders names
    lexicographically by their tokens: the end of a name comes before any
    token, a character before a number, characters by their code and
    numbers by their value. */
module HumanOrder {
  import opened Decimal
  import opened InventoryTypes

  datatype Token = Char(c: char) | Num(value: nat)

  /** The tokens of a name: each non-digit character, and the value of each
      maximal digit run, as `strtoul` reads it. */
  function Tokenize(s: string): seq<Token>
    decreases |s|
  {
    if s == [] then []
    else if IsDigit(s[0]) then
      var n := DigitRunLength(s);
      [Num(DigitsValue(s[..n]))] + Tokenize(s[n..])
    else [Char(s[0])] + Tokenize(s[1..])
  }

  /** Strict order on single tokens: a character before a number. */
  predicate TokenLess(x: Token, y: Token) {
    match (x, y)
    case (Char(c), Char(d)) => c < d
    case (Char(_), Num(_)) => true
    case (Num(_), Char(_)) => false
    case (Num(v), Num(w)) => v < w
  }

  /** Lexicographic order on token sequences; an exhausted sequence is
      less exactly when the other still has tokens. */
  predicate TokensLess(x: seq<Token>, y: seq<Token>) {
    if x == [] || y == [] then y != []
    else if x[0] != y[0] then TokenLess(x[0], y[0])
    else TokensLess(x[1..], y[1..])
  }

  /** The order `humanCompare` computes: `a` sorts before `b`. */
  predicate HumanLess(a: string, b: string) {
    TokensLess(Tokenize(a), Tokenize(b))
  }

  // ---------------------------------------------------------------------
  // The token order is a strict total order.

  lemma {:induction false} TokensLessIrreflexive(x: seq<Token>)
    ensures !TokensLess(x, x)
  {
    if x != [] {
      TokensLessIrreflexive(x[1..]);
    }
  }

  lemma {:induction false} TokensLessTransitive(x: seq<Token>, y: seq<Token>, z: seq<Token>)
    requires TokensLess(x, y) && TokensLess(y, z)
    ensures TokensLess(x, z)
  {
    if x != [] && y != [] && z != [] && x[0] == y[0] && y[0] == z[0] {
      TokensLessTransitive(x[1..], y[1..], z[1..]);
    }
  }

  lemma {:induction false} TokensLessTotal(x: seq<Token>, y: seq<Token>)
    requires x != y
    ensures TokensLess(x, y) || TokensLess(y, x)
  {
    if x != [] && y != [] && x[0] == y[0] {
      assert x == [x[0]] + x[1..] && y == [y[0]] + y[1..];
      TokensLessTotal(x[1..], y[1..]);
    }
  }

  // ---------------------------------------------------------------------
  // humanCompare is a strict weak order, as std::sort requires: irreflexive,
  // transitive, and two names are incomparable exactly when they have the
  // same tokens, which is an equivalence.

  lemma HumanLessIrreflexive(a: string)
    ensures !HumanLess(a, a)
  {
    TokensLessIrreflexive(Tokenize(a));
  }

  lemma HumanLessAsymmetric(a: string, b: string)
    requires HumanLess(a, b)
    ensures !HumanLess(b, a)
  {
    if HumanLess(b, a) {
      TokensLessTransitive(Tokenize(a), Tokenize(b), Tokenize(a));
      TokensLessIrreflexive(Tokenize(a));
    }
  }

  lemma HumanLessTransitive(a: string, b: string, c: string)
    requires HumanLess(a, b) && HumanLess(b, c)
    ensures HumanLess(a, c)
  {
    TokensLessTransitive(Tokenize(a), Tokenize(b), Tokenize(c));
  }

  lemma HumanIncomparableIffSameTokens(a: string, b: string)
    ensures !HumanLess(a, b) && !HumanLess(b, a) <==> Tokenize(a) == Tokenize(b)
  {
    if Tokenize(a) != Tokenize(b) {
      TokensLessTotal(Tokenize(a), Tokenize(b));
    } else {
      TokensLessIrreflexive(Tokenize(a));
    }
  }

  /** "Not after" is transitive: the property a sorted sequence is built on. */
  lemma HumanNotLessTransitive(a: string, b: string, c: string)
    requires !HumanLess(b, a) && !HumanLess(c, b)
    ensures !HumanLess(c, a)
  {
    if HumanLess(c, a) && Tokenize(a) != Tokenize(b) {
      TokensLessTotal(Tokenize(a), Tokenize(b));
      TokensLessTransitive(Tokenize(c), Tokenize(a), Tokenize(b));
    }
  }

  // ---------------------------------------------------------------------
  // The steps of the two-cursor walk, stated on the specification.

  /** One name ended: `a` sorts first exactly when `b` has characters left. */
  lemma HumanLessAtEnd(a: string, b: string)
    requires a == [] || b == []
    ensures HumanLess(a, b) <==> b != []
  {
  }

  /** Both on non-digits: unequal characters decide, equal ones move on. */
  lemma HumanLessChars(c: char, a: string, d: char, b: string)
    requires !IsDigit(c) && !IsDigit(d)
    ensures HumanLess([c] + a, [d] + b) <==> if c != d then c < d else HumanLess(a, b)
  {
    assert ([c] + a)[1..] == a && ([d] + b)[1..] == b;
  }

  lemma TokenizeDigitRun(digits: string, rest: string)
    requires digits != [] && AllDigits(digits)
    requires rest == [] || !IsDigit(rest[0])
    ensures Tokenize(digits + rest) == [Num(DigitsValue(digits))] + Tokenize(rest)
  {
    var s := digits + rest;
    DigitRunOfConcat(digits, rest);
    assert s[..|digits|] == digits && s[|digits|..] == rest;
  }

  lemma {:induction false} DigitRunOfConcat(digits: string, rest: string)
    requires AllDigits(digits)
    requires rest == [] || !IsDigit(rest[0])
    ensures DigitRunLength(digits + rest) == |digits|
  {
    if digits != [] {
      assert (digits + rest)[1..] == digits[1..] + rest;
      DigitRunOfConcat(digits[1..], rest);
    } else {
      assert digits + rest == rest;
    }
  }

  /** Both on digits: the maximal runs compare by value; equal values,
      leading zeros aside, move past both runs. */
  lemma HumanLessDigitRuns(da: string, a: string, db: string, b: string)
    requires da != [] && AllDigits(da) && (a == [] || !IsDigit(a[0]))
    requires db != [] && AllDigits(db) && (b == [] || !IsDigit(b[0]))
    ensures HumanLess(da + a, db + b) <==>
              if DigitsValue(da) != DigitsValue(db) then DigitsValue(da) < DigitsValue(db)
              else HumanLess(a, b)
  {
    TokenizeDigitRun(da, a);
    TokenizeDigitRun(db, b);
    var x, y := Tokenize(da + a), Tokenize(db + b);
    assert x[1..] == Tokenize(a) && y[1..] == Tokenize(b);
  }

  /** Exactly one on a digit: the non-digit side sorts first. */
  lemma HumanLessDigitAgainstChar(c: char, a: string, d: char, b: string)
    requires !IsDigit(c) && IsDigit(d)
    ensures HumanLess([c] + a, [d] + b)
    ensures !HumanLess([d] + b, [c] + a)
  {
    assert ([c] + a)[0] == c && ([d] + b)[0] == d;
  }

  /** A name sorts before any extension of it, unless the extension only
      continues its final digit run. */
  lemma {:induction false} HumanLessExtension(a: string, s: string)
    requires s != []
    requires a == [] || !IsDigit(a[|a| - 1]) || !IsDigit(s[0])
    ensures HumanLess(a, a + s)
    decreases |a|
  {
    if a == [] {
      assert a + s == s;
    } else if !IsDigit(a[0]) {
      assert (a + s)[0] == a[0] && (a + s)[1..] == a[1..] + s;
      HumanLessExtension(a[1..], s);
    } else {
      var n := DigitRunLength(a);
      DigitRunOfConcat(a[..n], a[n..]);
      if n == |a| {
        assert a + s == a[..n] + s;
        assert a[..n] + [] == a;
        TokenizeDigitRun(a[..n], s);
        TokenizeDigitRun(a[..n], []);
      } else {
        assert a + s == a[..n] + (a[n..] + s);
        assert a == a[..n] + a[n..];
        TokenizeDigitRun(a[..n], a[n..] + s);
        TokenizeDigitRun(a[..n], a[n..]);
        HumanLessExtension(a[n..], s);
      }
    }
  }

  /** Tokens of a concatenation that does not join two digit runs. */
  lemma {:induction false} TokenizeConcat(p: string, a: string)
    requires p == [] || a == [] || !IsDigit(p[|p| - 1]) || !IsDigit(a[0])
    ensures Tokenize(p + a) == Tokenize(p) + Tokenize(a)
    decreases |p|
  {
    if p == [] {
      assert p + a == a;
    } else if !IsDigit(p[0]) {
      TokenizeConcatChar(p, a);
    } else {
      TokenizeConcatDigits(p, a);
    }
  }

  lemma TokenizeConcatDigits(p: string, a: string)
    requires p != [] && IsDigit(p[0])
    requires p == [] || a == [] || !IsDigit(p[|p| - 1]) || !IsDigit(a[0])
    ensures Tokenize(p + a) == Tokenize(p) + Tokenize(a)
    decreases |p|, 0
  {
    var n := DigitRunLength(p);
    SplitAround(p, a, n);
    var digits, rest := p[..n], p[n..];
    if n == |p| {
      assert IsDigit(digits[n - 1]);
    }
    TokenizeConcat(rest, a);
    TokenizeAfterRun(digits, rest, a);
  }

  lemma SplitAround(p: string, a: string, n: nat)
    requires n < |p| || n == |p|
    ensures p == p[..n] + p[n..] && p + a == p[..n] + (p[n..] + a)
    ensures n < |p| ==> p[n..][|p| - n - 1] == p[|p| - 1]
  {
    assert p == p[..n] + p[n..];
  }

  /** The step of `TokenizeConcatDigits` past the leading digit run. */
  lemma TokenizeAfterRun(digits: string, rest: string, a: string)
    requires digits != [] && AllDigits(digits) && (rest == [] || !IsDigit(rest[0]))
    requires rest != [] || a == [] || !IsDigit(a[0])
    requires Tokenize(rest + a) == Tokenize(rest) + Tokenize(a)
    ensures Tokenize(digits + (rest + a)) == Tokenize(digits + rest) + Tokenize(a)
  {
    TokenizeRunTwice(digits, rest, a);
    TokensAssociative([Num(DigitsValue(digits))], Tokenize(rest), Tokenize(a));
  }

  lemma TokenizeRunTwice(digits: string, rest: string, a: string)
    requires digits != [] && AllDigits(digits) && (rest == [] || !IsDigit(rest[0]))
    requires rest != [] || a == [] || !IsDigit(a[0])
    ensures Tokenize(digits + (rest + a)) == [Num(DigitsValue(digits))] + Tokenize(rest + a)
    ensures Tokenize(digits + rest) == [Num(DigitsValue(digits))] + Tokenize(rest)
  {
    if rest == [] {
      assert rest + a == a;
    } else {
      assert (rest + a)[0] == rest[0];
    }
    TokenizeDigitRun(digits, rest + a);
    TokenizeDigitRun(digits, rest);
  }

  lemma TokensAssociative(x: seq<Token>, y: seq<Token>, z: seq<Token>)
    ensures x + (y + z) == (x + y) + z
  {
  }

  lemma TokenizeConcatChar(p: string, a: string)
    requires p != [] && !IsDigit(p[0])
    requires p == [] || a == [] || !IsDigit(p[|p| - 1]) || !IsDigit(a[0])
    ensures Tokenize(p + a) == Tokenize(p) + Tokenize(a)
    decreases |p|, 0
  {
    assert (p + a)[0] == p[0] && (p + a)[1..] == p[1..] + a;
    TokenizeConcat(p[1..], a);
  }

  lemma {:induction false} TokensLessCommonPrefix(x: seq<Token>, y: seq<Token>, z: seq<Token>)
    ensures TokensLess(x + y, x + z) <==> TokensLess(y, z)
  {
    if x != [] {
      assert (x + y)[1..] == x[1..] + y && (x + z)[1..] == x[1..] + z;
      TokensLessCommonPrefix(x[1..], y, z);
    } else {
      assert x + y == y && x + z == z;
    }
  }

  /** Names that share a prefix ending in a non-digit compare by what follows. */
  lemma HumanLessCommonPrefix(p: string, a: string, b: string)
    requires p != [] && !IsDigit(p[|p| - 1])
    ensures HumanLess(p + a, p + b) <==> HumanLess(a, b)
  {
    TokenizeConcat(p, a);
    TokenizeConcat(p, b);
    TokensLessCommonPrefix(Tokenize(p), Tokenize(a), Tokenize(b));
  }

  // ---------------------------------------------------------------------
  // Examples: the orderings the comparator documents and the inventory test
  // relies on, for the names "cpuN" and "cpuN/coreM" of any numbers N, M.

  /** A decimal number as written in a name. */
  predicate Number(d: string) {
    d != [] && AllDigits(d)
  }

  /** "cpuN". */
  function CpuName(cpu: string): string {
    "cpu" + cpu
  }

  /** "cpuN/coreM". */
  function CoreName(cpu: string, core: string): string {
    CpuName(cpu) + ("/core" + core)
  }

  /** A processor sorts before each of its cores. */
  lemma CpuBeforeItsCores(cpu: string, core: string)
    ensures HumanLess(CpuName(cpu), CoreName(cpu, core))
  {
    var s := "/core" + core;
    assert s[0] == '/';
    HumanLessExtension(CpuName(cpu), s);
  }

  /** The cores of one processor sort by core number: cpu1/core2 before
      cpu1/core10. */
  lemma CoresByNumber(cpu: string, m: string, n: string)
    requires Number(m) && Number(n) && DigitsValue(m) < DigitsValue(n)
    ensures HumanLess(CoreName(cpu, m), CoreName(cpu, n))
  {
    var p := CpuName(cpu) + "/core";
    assert p[|p| - 1] == 'e';
    assert CoreName(cpu, m) == p + m && CoreName(cpu, n) == p + n;
    assert m + [] == m && n + [] == n;
    HumanLessDigitRuns(m, [], n, []);
    HumanLessCommonPrefix(p, m, n);
  }

  /** Names "cpuN..." sort by the processor number N first. */
  lemma CpusByNumberFirst(m: string, a: string, n: string, b: string)
    requires Number(m) && Number(n) && DigitsValue(m) < DigitsValue(n)
    requires a == [] || !IsDigit(a[0])
    requires b == [] || !IsDigit(b[0])
    ensures HumanLess(CpuName(m + a), CpuName(n + b))
  {
    HumanLessDigitRuns(m, a, n, b);
    HumanLessCommonPrefix("cpu", m + a, n + b);
  }

  /** A core of a processor sorts before the cores of a later processor:
      cpu0/core10 before cpu1/core2. */
  lemma CoresByCpuNumber(cpu: string, m: string, next: string, n: string)
    requires Number(cpu) && Number(next) && DigitsValue(cpu) < DigitsValue(next)
    ensures HumanLess(CoreName(cpu, m), CoreName(next, n))
  {
    var a, b := "/core" + m, "/core" + n;
    assert a[0] == '/' && b[0] == '/';
    assert CoreName(cpu, m) == CpuName(cpu + a) && CoreName(next, n) == CpuName(next + b);
    CpusByNumberFirst(cpu, a, next, b);
  }

  /** A core of a processor sorts before a later processor: cpu0/core10
      before cpu5. */
  lemma CoreBeforeLaterCpu(cpu: string, core: string, next: string)
    requires Number(cpu) && Number(next) && DigitsValue(cpu) < DigitsValue(next)
    ensures HumanLess(CoreName(cpu, core), CpuName(next))
  {
    var a := "/core" + core;
    assert a[0] == '/';
    assert CoreName(cpu, core) == CpuName(cpu + a) && next + [] == next;
    CpusByNumberFirst(cpu, a, next, []);
  }

  /** Processors sort by number: cpu5 before cpu10. */
  lemma CpusByNumber(m: string, n: string)
    requires Number(m) && Number(n) && DigitsValue(m) < DigitsValue(n)
    ensures HumanLess(CpuName(m), CpuName(n))
  {
    assert m + [] == m && n + [] == n;
    CpusByNumberFirst(m, [], n, []);
  }

  /** The comparator's documented case: cpu1/core2 sorts before
      cpu1/core10, but after cpu0/core10. */
  lemma DocumentedExample()
    ensures HumanLess(CoreName("1", "2"), CoreName("1", "10"))
    ensures HumanLess(CoreName("0", "10"), CoreName("1", "2"))
  {
    CoresByNumber("1", "2", "10");
    CoresByCpuNumber("0", "10", "1", "2");
  }

  /** Digit runs of equal value are equivalent, whatever their length. */
  lemma LeadingZerosExample()
    ensures !HumanLess("01", "1") && !HumanLess("1", "01")
  {
    TokenizeDigitRun("01", "");
    TokenizeDigitRun("1", "");
    assert "01" + "" == "01" && "1" + "" == "1";
    HumanIncomparableIffSameTokens("01", "1");
  }

  // ---------------------------------------------------------------------
  // The comparator itself.

  /** `humanCompare(a, b)`: two cursors walk the names; true when `a`
      sorts before `b`. */
  method HumanCompare(a: Item, b: Item) returns (less: bool)
    ensures less == HumanLess(a.name, b.name)
  {
    var strA, strB := a.name, b.name;
    var i, j := 0, 0;
    while true
      invariant 0 <= i <= |strA| && 0 <= j <= |strB|
      invariant HumanLess(strA, strB) == TokensLess(Tokenize(strA[i..]), Tokenize(strB[j..]))
      decreases |strA| - i
    {
      // a cursor at its end: only b having characters left puts a first
      if i == |strA| || j == |strB| {
        TokenizeAtEnd(strA, i, strB, j);
        return j < |strB|;
      }
      var chrA, chrB := strA[i], strB[j];
      var isNumA, isNumB := IsDigit(chrA), IsDigit(chrB);
      if isNumA && isNumB {
        // two digit runs: compare their values, then skip both runs
        var endA := i + DigitRunLength(strA[i..]);
        var endB := j + DigitRunLength(strB[j..]);
        TokenizeAt(strA, i, endA);
        TokenizeAt(strB, j, endB);
        var valA := DigitsValue(strA[i..endA]);
        var valB := DigitsValue(strB[j..endB]);
        TokensLessStep(Num(valA), Tokenize(strA[endA..]), Num(valB), Tokenize(strB[endB..]));
        if valA != valB {
          return valA < valB;
        }
        i, j := endA, endB;
      } else if isNumA != isNumB {
        // a run against a character: the character side sorts first
        TokenizeHead(strA, i);
        TokenizeHead(strB, j);
        return isNumB;
      } else {
        // two characters: compare codes, then advance both cursors by one
        TokenizeCharAt(strA, i);
        TokenizeCharAt(strB, j);
        TokensLessStep(Char(chrA), Tokenize(strA[i + 1..]), Char(chrB), Tokenize(strB[j + 1..]));
        if chrA != chrB {
          return chrA < chrB;
        }
        i, j := i + 1, j + 1;
      }
    }
  }

  /** The tokens from a cursor on a digit: the run's value, then the rest. */
  lemma TokenizeAt(s: string, i: nat, end: nat)
    requires i < |s| && IsDigit(s[i]) && end == i + DigitRunLength(s[i..])
    ensures i < end <= |s| && AllDigits(s[i..end])
    ensures Tokenize(s[i..]) == [Num(DigitsValue(s[i..end]))] + Tokenize(s[end..])
  {
    var t := s[i..];
    var n := DigitRunLength(t);
    assert t[..n] == s[i..end] && t[n..] == s[end..];
  }

  /** The tokens from a cursor on a non-digit: that character, then the rest. */
  lemma TokenizeCharAt(s: string, i: nat)
    requires i < |s| && !IsDigit(s[i])
    ensures Tokenize(s[i..]) == [Char(s[i])] + Tokenize(s[i + 1..])
  {
    assert s[i..][1..] == s[i + 1..];
  }

  /** The first token from a cursor is a number exactly on a digit. */
  lemma TokenizeHead(s: string, i: nat)
    requires i < |s|
    ensures Tokenize(s[i..]) != [] && Tokenize(s[i..])[0].Num? == IsDigit(s[i])
  {
  }

  /** Cursors at the end of a name. */
  lemma TokenizeAtEnd(a: string, i: nat, b: string, j: nat)
    requires i <= |a| && j <= |b| && (i == |a| || j == |b|)
    ensures TokensLess(Tokenize(a[i..]), Tokenize(b[j..])) == (j < |b|)
  {
    if j < |b| {
      TokenizeHead(b, j);
    }
  }

  /** Comparing token sequences by their first tokens. */
  lemma TokensLessStep(x: Token, xs: seq<Token>, y: Token, ys: seq<Token>)
    ensures TokensLess([x] + xs, [y] + ys) == if x != y then TokenLess(x, y) else TokensLess(xs, ys)
  {
    assert ([x] + xs)[1..] == xs && ([y] + ys)[1..] == ys;
  }
}
