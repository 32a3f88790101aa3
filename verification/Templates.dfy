// Event formats: "$n" stands for the n-th group of the match.  The code rewrites
// it to "{{index . n}}" and hands the result to text/template.
module Templates {
  import opened Options

  datatype Token = Lit(c: char) | Index(n: nat)

  predicate Digit(c: char) {
    '0' <= c <= '9'
  }

  // Length of the run of digits at the beginning of s.
  function DigitRun(s: string): (n: nat)
    ensures n <= |s| && forall i | 0 <= i < n :: Digit(s[i])
    ensures n < |s| ==> !Digit(s[n])
  {
    if s == "" || !Digit(s[0]) then 0 else 1 + DigitRun(s[1..])
  }

  function ValueIn(base: nat, digits: string): nat
    requires forall i | 0 <= i < |digits| :: Digit(digits[i])
  {
    if digits == "" then 0
    else
      var last := digits[|digits| - 1];
      assert Digit(last);
      ValueIn(base, digits[..|digits| - 1]) * base + (last - '0') as nat
  }

  // A "$" followed by a digit: the index it stands for is the whole digit run.
  predicate AtIndex(format: string) {
    |format| >= 2 && format[0] == '$' && Digit(format[1])
  }

  function IndexDigits(format: string): (d: string)
    requires AtIndex(format)
    ensures d != "" && forall i | 0 <= i < |d| :: Digit(d[i])
  {
    format[1..1 + DigitRun(format[1..])]
  }

  function AfterIndex(format: string): string
    requires AtIndex(format)
  {
    format[1 + DigitRun(format[1..])..]
  }

  // What a format means: "$n" is group n, anything else is itself.
  function Meaning(format: string): seq<Token>
    decreases |format|
  {
    if format == "" then []
    else if AtIndex(format) then [Index(ValueIn(10, IndexDigits(format)))] + Meaning(AfterIndex(format))
    else [Lit(format[0])] + Meaning(format[1..])
  }

  // templateIndexRe.ReplaceAllString(format, "{{index . $1}}")
  function Translate(format: string): string
    decreases |format|
  {
    if format == "" then ""
    else if AtIndex(format) then "{{index . " + IndexDigits(format) + "}}" + Translate(AfterIndex(format))
    else [format[0]] + Translate(format[1..])
  }

  // --- text/template, as far as it is needed ---

  const OPEN := "{{"
  const INDEX_OPEN := "{{index . "
  const CLOSE := "}}"

  // What text/template makes of digits that are no integer, because they begin
  // with a zero and have an 8 or a 9, or because they are too large: it refuses
  // them, or (in early versions of Go) takes the value they have as a
  // floating-point number.
  datatype Numbers = Strict | Lenient

  predicate HasHighDigit(digits: string) {
    exists i | 0 <= i < |digits| :: digits[i] >= '8'
  }

  // Numbers from here on fit no integer.  An index between the largest int and
  // this is read, and out of range of any list that can be.
  const INTEGER_LIMIT: nat := 0x1_0000_0000_0000_0000

  // An octal or decimal integer.
  function IntegerValue(digits: string): nat
    requires digits != "" && forall i | 0 <= i < |digits| :: Digit(digits[i])
  {
    ValueIn(if digits[0] == '0' && !HasHighDigit(digits) then 8 else 10, digits)
  }

  predicate IsInteger(digits: string)
    requires digits != "" && forall i | 0 <= i < |digits| :: Digit(digits[i])
  {
    (digits[0] == '0' ==> !HasHighDigit(digits)) && IntegerValue(digits) < INTEGER_LIMIT
  }

  // A number in a template: a leading zero makes it octal.
  function ReadNumber(numbers: Numbers, digits: string): Option<nat>
    requires digits != "" && forall i | 0 <= i < |digits| :: Digit(digits[i])
  {
    if IsInteger(digits) then Some(IntegerValue(digits))
    else if numbers.Lenient? then Some(ValueIn(10, digits))
    else None
  }

  // The program of a text with no other actions than {{index . n}}; None where
  // parsing panics or an action is of another kind.
  function ReadTemplate(numbers: Numbers, t: string): Option<seq<Token>>
    decreases |t|
  {
    if t == "" then Some([])
    else if OPEN <= t then
      if INDEX_OPEN <= t then
        var rest := t[|INDEX_OPEN|..];
        var d := DigitRun(rest);
        if d > 0 && CLOSE <= rest[d..] && ReadNumber(numbers, rest[..d]).Some?
           && ReadTemplate(numbers, rest[d + 2..]).Some?
        then Some([Index(ReadNumber(numbers, rest[..d]).value)] + ReadTemplate(numbers, rest[d + 2..]).value)
        else None
      else None
    else if ReadTemplate(numbers, t[1..]).Some? then Some([Lit(t[0])] + ReadTemplate(numbers, t[1..]).value)
    else None
  }

  // Reading t meets a number it refuses before any action of another kind: then
  // template.Must panics, whatever the rest is.
  predicate Refused(numbers: Numbers, t: string)
    decreases |t|
  {
    if t == "" then false
    else if OPEN <= t then
      if INDEX_OPEN <= t then
        var rest := t[|INDEX_OPEN|..];
        var d := DigitRun(rest);
        d > 0 && CLOSE <= rest[d..] && (ReadNumber(numbers, rest[..d]).None? || Refused(numbers, rest[d + 2..]))
      else false
    else Refused(numbers, t[1..])
  }

  // All actions of t are {{index . n}}.
  predicate OnlyIndexes(t: string)
    decreases |t|
  {
    if t == "" then true
    else if OPEN <= t then
      if INDEX_OPEN <= t then
        var rest := t[|INDEX_OPEN|..];
        var d := DigitRun(rest);
        d > 0 && CLOSE <= rest[d..] && OnlyIndexes(rest[d + 2..])
      else false
    else OnlyIndexes(t[1..])
  }

  // A template of such actions is read exactly when it has no refused number.
  lemma {:induction false} ReadUnlessRefused(numbers: Numbers, t: string)
    ensures ReadTemplate(numbers, t).Some? <==> OnlyIndexes(t) && !Refused(numbers, t)
    decreases |t|
  {
    if t == "" {
    } else if OPEN <= t {
      if INDEX_OPEN <= t {
        var rest := t[|INDEX_OPEN|..];
        var d := DigitRun(rest);
        if d > 0 && CLOSE <= rest[d..] { ReadUnlessRefused(numbers, rest[d + 2..]); }
      }
    } else {
      ReadUnlessRefused(numbers, t[1..]);
    }
  }

  // Execution fails on the first index that is out of range.
  function Execute(program: seq<Token>, results: seq<string>): Option<string> {
    if program == [] then Some("")
    else
      var head := match program[0] case Lit(c) => Some([c])
                                   case Index(n) => if n < |results| then Some(results[n]) else None;
      var tail := Execute(program[1..], results);
      if head.Some? && tail.Some? then Some(head.value + tail.value) else None
  }

  predicate InRange(program: seq<Token>, results: seq<string>) {
    forall i | 0 <= i < |program| :: program[i].Index? ==> program[i].n < |results|
  }

  lemma {:induction false} ExecuteSucceedsIff(program: seq<Token>, results: seq<string>)
    ensures Execute(program, results).Some? <==> InRange(program, results)
  {
    if program != [] {
      ExecuteSucceedsIff(program[1..], results);
      if InRange(program, results) {
        assert program[0].Index? ==> program[0].n < |results|;
        forall i | 0 <= i < |program[1..]| ensures program[1..][i].Index? ==> program[1..][i].n < |results| {
          assert program[1..][i] == program[i + 1];
        }
      }
      if InRange(program[1..], results) && (program[0].Index? ==> program[0].n < |results|) {
        forall i | 0 <= i < |program| ensures program[i].Index? ==> program[i].n < |results| {
          if i > 0 { assert program[i] == program[1..][i - 1]; }
        }
      }
    }
  }

  // --- what executing gives ---

  // A literal is itself, an index the whole of its group.
  lemma ExecuteOne(results: seq<string>, c: char, n: nat)
    ensures Execute([Lit(c)], results) == Some([c])
    ensures Execute([Index(n)], results) == if n < |results| then Some(results[n]) else None
  {
    assert Execute([], results) == Some("");
    assert [c] + "" == [c];
    if n < |results| { assert results[n] + "" == results[n]; }
  }

  lemma ExecuteMore(x: Token, rest: seq<Token>, results: seq<string>)
    ensures Execute([x] + rest, results) ==
            if Execute([x], results).Some? && Execute(rest, results).Some?
            then Some(Execute([x], results).value + Execute(rest, results).value) else None
  {
    match x
    case Lit(c) => ExecuteOne(results, c, 0);
    case Index(n) => ExecuteOne(results, ' ', n);
    assert ([x] + rest)[1..] == rest;
  }

  // Two programs one after the other give their outputs one after the other.
  lemma {:induction false} ExecuteConcat(a: seq<Token>, b: seq<Token>, results: seq<string>)
    ensures Execute(a + b, results) ==
            if Execute(a, results).Some? && Execute(b, results).Some?
            then Some(Execute(a, results).value + Execute(b, results).value) else None
  {
    if a == [] {
      assert a + b == b;
      if Execute(b, results).Some? { assert "" + Execute(b, results).value == Execute(b, results).value; }
    } else {
      ExecuteConcat(a[1..], b, results);
      ExecuteMore(a[0], a[1..], results);
      ExecuteMore(a[0], a[1..] + b, results);
      assert [a[0]] + a[1..] == a && [a[0]] + (a[1..] + b) == a + b;
      var head, x, y := Execute([a[0]], results), Execute(a[1..], results), Execute(b, results);
      if head.Some? && x.Some? && y.Some? {
        assert head.value + (x.value + y.value) == (head.value + x.value) + y.value;
      }
    }
  }

  // --- what digits are worth ---

  function DigitChar(k: nat): (c: char)
    requires k < 10
    ensures Digit(c) && (c - '0') as nat == k
  {
    '0' + k as char
  }

  // Division with rest in base 8 or 10.
  function Divided(base: nat, n: nat): (r: (nat, nat))
    requires base == 8 || base == 10
    ensures r.0 * base + r.1 == n && r.1 < base
    ensures n >= base ==> 0 < r.0 < n
  {
    if base == 8 then (n / 8, n % 8) else (n / 10, n % 10)
  }

  // The number n written in base 8 or 10, without leading zeros.
  function Numeral(base: nat, n: nat): (d: string)
    requires base == 8 || base == 10
    ensures d != "" && forall i | 0 <= i < |d| :: Digit(d[i])
    ensures forall i | 0 <= i < |d| :: d[i] < '0' + base as char
    ensures d[0] == '0' ==> n == 0
  {
    if n < base then [DigitChar(n)]
    else Numeral(base, Divided(base, n).0) + [DigitChar(Divided(base, n).1)]
  }

  lemma OneMoreDigit(base: nat, d: string, c: char)
    requires Digit(c) && forall i | 0 <= i < |d| :: Digit(d[i])
    ensures forall i | 0 <= i < |d + [c]| :: Digit((d + [c])[i])
    ensures ValueIn(base, d + [c]) == ValueIn(base, d) * base + (c - '0') as nat
  {
    assert (d + [c])[..|d|] == d;
  }

  lemma OneDigit(base: nat, c: char)
    requires Digit(c)
    ensures ValueIn(base, [c]) == (c - '0') as nat
  {
    OneMoreDigit(base, "", c);
    assert "" + [c] == [c] && ValueIn(base, "") == 0;
  }

  lemma MoreDigits(base: nat, n: nat, d: string)
    requires (base == 8 || base == 10) && forall i | 0 <= i < |d| :: Digit(d[i])
    requires ValueIn(base, d) == Divided(base, n).0
    ensures forall i | 0 <= i < |d + [DigitChar(Divided(base, n).1)]| :: Digit((d + [DigitChar(Divided(base, n).1)])[i])
    ensures ValueIn(base, d + [DigitChar(Divided(base, n).1)]) == n
  {
    OneMoreDigit(base, d, DigitChar(Divided(base, n).1));
  }

  lemma {:induction false} NumeralValue(base: nat, n: nat)
    requires base == 8 || base == 10
    ensures ValueIn(base, Numeral(base, n)) == n
  {
    if n < base {
      OneDigit(base, DigitChar(n));
    } else {
      NumeralValue(base, Divided(base, n).0);
      MoreDigits(base, n, Numeral(base, Divided(base, n).0));
    }
  }

  lemma {:induction false} LeadingZero(base: nat, d: string)
    requires forall i | 0 <= i < |d| :: Digit(d[i])
    ensures forall i | 0 <= i < |['0'] + d| :: Digit((['0'] + d)[i])
    ensures ValueIn(base, ['0'] + d) == ValueIn(base, d)
  {
    if d == "" {
      assert (['0'] + d)[..0] == "" && ValueIn(base, "") == 0;
    } else {
      LeadingZero(base, d[..|d| - 1]);
      assert (['0'] + d)[..|d|] == ['0'] + d[..|d| - 1];
    }
  }

  // A number is read from its decimal digits, and with a leading zero from its
  // octal digits, when it is below 2^64.
  lemma ReadDecimal(numbers: Numbers, n: nat)
    ensures n < 18446744073709551616 ==> ReadNumber(numbers, Numeral(10, n)) == Some(n)
    ensures n >= 18446744073709551616 ==> ReadNumber(Strict, Numeral(10, n)).None?
  {
    if n == 0 {
      NumeralValue(8, 0);
      assert Numeral(10, 0) == Numeral(8, 0) == "0";
    }
    NumeralValue(10, n);
  }

  lemma ReadOctal(numbers: Numbers, n: nat)
    ensures forall i | 0 <= i < |['0'] + Numeral(8, n)| :: Digit((['0'] + Numeral(8, n))[i])
    ensures n < 18446744073709551616 ==> ReadNumber(numbers, ['0'] + Numeral(8, n)) == Some(n)
    ensures n >= 18446744073709551616 ==> ReadNumber(Strict, ['0'] + Numeral(8, n)).None?
  {
    NumeralValue(8, n);
    LeadingZero(8, Numeral(8, n));
    var d := ['0'] + Numeral(8, n);
    forall i | 0 <= i < |d| ensures d[i] < '8' {
      if i > 0 { assert d[i] == Numeral(8, n)[i - 1]; }
    }
  }

  // Digits with a leading zero and an 8 or a 9 are no integer.
  lemma ReadNotOctal(d: string)
    requires d != "" && d[0] == '0' && ('8' in d || '9' in d) && forall i | 0 <= i < |d| :: Digit(d[i])
    ensures ReadNumber(Strict, d).None? && ReadNumber(Lenient, d) == Some(ValueIn(10, d))
  {
    if '8' in d {
      var i :| 0 <= i < |d| && d[i] == '8';
      assert d[i] >= '8';
    } else {
      var i :| 0 <= i < |d| && d[i] == '9';
      assert d[i] >= '8';
    }
  }

  // --- when the translation keeps the meaning ---

  // An integer without a leading zero, or with one that changes nothing: only
  // zeros before the last digit.  Or no integer, but read all the same.
  predicate Plain(numbers: Numbers, digits: string)
    requires digits != "" && forall i | 0 <= i < |digits| :: Digit(digits[i])
  {
    if IsInteger(digits) then digits[0] != '0' || forall i | 0 <= i < |digits| - 1 :: digits[i] == '0'
    else numbers.Lenient?
  }

  lemma {:induction false} ZeroDigits(digits: string)
    requires forall i | 0 <= i < |digits| :: Digit(digits[i])
    ensures ValueIn(10, digits) == 0 <==> forall i | 0 <= i < |digits| :: digits[i] == '0'
  {
    if digits != "" {
      assert Digit(digits[|digits| - 1]);
      ZeroDigits(digits[..|digits| - 1]);
    }
  }

  // Octal reading never gives more, and gives the same only if nothing but zeros
  // precede the last digit.
  lemma {:induction false} OctalIsLess(digits: string)
    requires forall i | 0 <= i < |digits| :: Digit(digits[i])
    ensures ValueIn(8, digits) <= ValueIn(10, digits)
    ensures ValueIn(8, digits) == ValueIn(10, digits) <==> forall i | 0 <= i < |digits| - 1 :: digits[i] == '0'
  {
    if digits != "" {
      var front := digits[..|digits| - 1];
      assert Digit(digits[|digits| - 1]);
      OctalIsLess(front);
      ZeroDigits(front);
      assert forall i | 0 <= i < |front| :: front[i] == digits[i];
    }
  }

  // The digits mean the same to the format and to the template exactly when they
  // are plain.
  lemma PlainNumber(numbers: Numbers, digits: string)
    requires digits != "" && forall i | 0 <= i < |digits| :: Digit(digits[i])
    ensures ReadNumber(numbers, digits) == Some(ValueIn(10, digits)) <==> Plain(numbers, digits)
  {
    OctalIsLess(digits);
  }

  // No "{{", no "{" right before a "$" index, and only plain indexes.
  predicate Clean(numbers: Numbers, format: string)
    decreases |format|
  {
    if format == "" then true
    else if AtIndex(format) then Plain(numbers, IndexDigits(format)) && Clean(numbers, AfterIndex(format))
    else
      (format[0] == '{' ==> format[1..] == "" || (format[1] != '{' && !AtIndex(format[1..])))
      && Clean(numbers, format[1..])
  }

  lemma {:induction false} DigitRunOf(d: string, rest: string)
    requires forall i | 0 <= i < |d| :: Digit(d[i])
    requires rest == "" || !Digit(rest[0])
    ensures DigitRun(d + rest) == |d|
  {
    if d == "" {
      assert d + rest == rest;
    } else {
      DigitRunOf(d[1..], rest);
      assert (d + rest)[1..] == d[1..] + rest;
    }
  }

  lemma ReadIndexAction(numbers: Numbers, d: string, tail: string)
    requires d != "" && forall i | 0 <= i < |d| :: Digit(d[i])
    ensures ReadTemplate(numbers, INDEX_OPEN + d + CLOSE + tail) ==
            if ReadNumber(numbers, d).Some? && ReadTemplate(numbers, tail).Some?
            then Some([Index(ReadNumber(numbers, d).value)] + ReadTemplate(numbers, tail).value) else None
  {
    var t := INDEX_OPEN + d + CLOSE + tail;
    var rest := t[|INDEX_OPEN|..];
    assert rest == d + (CLOSE + tail);
    DigitRunOf(d, CLOSE + tail);
    assert INDEX_OPEN <= t && t[..2] == OPEN;
    assert rest[..|d|] == d && rest[|d|..] == CLOSE + tail && rest[|d| + 2..] == tail;
  }

  lemma BraceAhead(format: string)
    ensures Translate(format) != "" && Translate(format)[0] == '{' <==>
            format != "" && (format[0] == '{' || AtIndex(format))
  {}

  // A brace right before another one cannot be read as the text it stands for.
  lemma ReadBraces(numbers: Numbers, t: string, program: seq<Token>)
    requires OPEN <= t
    ensures ReadTemplate(numbers, t) != Some([Lit('{')] + program)
  {
    if ReadTemplate(numbers, t).Some? { assert ReadTemplate(numbers, t).value[0].Index?; }
    assert ([Lit('{')] + program)[0].Lit?;
  }

  lemma SameTail(x: Token, y: Token, xs: seq<Token>, ys: seq<Token>)
    ensures [x] + xs == [y] + ys <==> x == y && xs == ys
  {
    assert ([x] + xs)[0] == x && ([y] + ys)[0] == y;
    assert ([x] + xs)[1..] == xs && ([y] + ys)[1..] == ys;
  }

  lemma ReadLiteral(numbers: Numbers, c: char, t: string)
    requires !(OPEN <= [c] + t)
    ensures ReadTemplate(numbers, [c] + t) ==
            if ReadTemplate(numbers, t).Some? then Some([Lit(c)] + ReadTemplate(numbers, t).value) else None
  {
    assert ([c] + t)[1..] == t;
  }

  // The template program is the format's meaning, token by token, exactly when
  // the format is clean.
  lemma {:induction false} TranslationExact(numbers: Numbers, format: string)
    ensures ReadTemplate(numbers, Translate(format)) == Some(Meaning(format)) <==> Clean(numbers, format)
    decreases |format|
  {
    if format == "" {
    } else if AtIndex(format) {
      var d, rest := IndexDigits(format), AfterIndex(format);
      TranslationExact(numbers, rest);
      PlainNumber(numbers, d);
      ReadIndexAction(numbers, d, Translate(rest));
      if ReadNumber(numbers, d).Some? && ReadTemplate(numbers, Translate(rest)).Some? {
        SameTail(Index(ReadNumber(numbers, d).value), Index(ValueIn(10, d)),
                 ReadTemplate(numbers, Translate(rest)).value, Meaning(rest));
      }
    } else {
      var c, rest := format[0], format[1..];
      TranslationExact(numbers, rest);
      BraceAhead(rest);
      var t := [c] + Translate(rest);
      assert t[0] == c && (Translate(rest) != "" ==> t[1] == Translate(rest)[0]);
      assert OPEN <= t <==> c == '{' && Translate(rest) != "" && Translate(rest)[0] == '{';
      if OPEN <= t {
        ReadBraces(numbers, t, Meaning(rest));
      } else {
        ReadLiteral(numbers, c, Translate(rest));
        if ReadTemplate(numbers, Translate(rest)).Some? {
          SameTail(Lit(c), Lit(c), ReadTemplate(numbers, Translate(rest)).value, Meaning(rest));
        }
      }
    }
  }

  // --- what that means for the outcome ---

  // What handling an event with this format gives: None if building the template
  // panics or it has other actions, else the outcome of executing it.
  function Rendered(numbers: Numbers, format: string, results: seq<string>): Option<Option<string>> {
    if ReadTemplate(numbers, Translate(format)).Some?
    then Some(Execute(ReadTemplate(numbers, Translate(format)).value, results)) else None
  }

  // Direct substitution of the groups.
  function Substituted(format: string, results: seq<string>): Option<string> {
    Execute(Meaning(format), results)
  }

  function Width(program: seq<Token>): nat {
    if program == [] then 0
    else
      var rest := Width(program[1..]);
      if program[0].Index? && program[0].n >= rest then program[0].n + 1 else rest
  }

  lemma {:induction false} WidthCovers(program: seq<Token>, i: nat)
    requires i < |program| && program[i].Index?
    ensures program[i].n < Width(program)
  {
    if i > 0 {
      WidthCovers(program[1..], i - 1);
      assert program[1..][i - 1] == program[i];
    }
  }

  // With one-character groups every token becomes one character.
  lemma {:induction false} OneCharEach(program: seq<Token>, results: seq<string>)
    requires InRange(program, results) && forall i | 0 <= i < |results| :: |results[i]| == 1
    ensures Execute(program, results).Some? && |Execute(program, results).value| == |program|
    ensures forall i | 0 <= i < |program| ::
              Execute(program, results).value[i] ==
              match program[i] case Lit(c) => c case Index(n) => results[n][0]
  {
    if program != [] {
      forall i | 0 <= i < |program[1..]| ensures program[1..][i].Index? ==> program[1..][i].n < |results| {
        assert program[1..][i] == program[i + 1];
      }
      assert program[0].Index? ==> program[0].n < |results|;
      OneCharEach(program[1..], results);
      var out := Execute(program, results).value;
      forall i | 0 <= i < |program|
        ensures out[i] == match program[i] case Lit(c) => c case Index(n) => results[n][0]
      {
        if i > 0 { assert program[i] == program[1..][i - 1]; }
      }
    }
  }

  function Fill(n: nat, c: char): seq<string> {
    seq(n, _ => [c])
  }

  // Different programs give different results on some groups.
  lemma ProgramsDiffer(a: seq<Token>, b: seq<Token>) returns (results: seq<string>)
    requires a != b
    ensures InRange(a, results) && InRange(b, results)
    ensures Execute(a, results) != Execute(b, results)
  {
    var n := Width(a) + Width(b);
    forall i | 0 <= i < |a| && a[i].Index? ensures a[i].n < n { WidthCovers(a, i); }
    forall i | 0 <= i < |b| && b[i].Index? ensures b[i].n < n { WidthCovers(b, i); }
    if |a| != |b| {
      results := Fill(n, 'x');
      OneCharEach(a, results);
      OneCharEach(b, results);
    } else {
      var i :| 0 <= i < |a| && a[i] != b[i];
      var other := if a[i] == Lit('y') || b[i] == Lit('y') then 'z' else 'y';
      results := Fill(n, other);
      if a[i].Index? && b[i].Index? { results := results[a[i].n := "x"]; }
      OneCharEach(a, results);
      OneCharEach(b, results);
      assert Execute(a, results).value[i] != Execute(b, results).value[i];
    }
  }

  // A format is rendered as direct substitution for every list of groups exactly
  // when it is clean.
  lemma RenderingExact(numbers: Numbers, format: string)
    ensures (forall results :: Rendered(numbers, format, results) == Some(Substituted(format, results))) <==>
            Clean(numbers, format)
  {
    TranslationExact(numbers, format);
    if !Clean(numbers, format) {
      var results: seq<string> := [];
      if ReadTemplate(numbers, Translate(format)).Some? {
        results := ProgramsDiffer(ReadTemplate(numbers, Translate(format)).value, Meaning(format));
      }
      assert Rendered(numbers, format, results) != Some(Substituted(format, results));
    }
  }

  // What becomes of an index, and when that is the group the format names.
  lemma IndexRead(numbers: Numbers, d: string)
    requires d != "" && forall i | 0 <= i < |d| :: Digit(d[i])
    ensures Meaning("$" + d) == [Index(ValueIn(10, d))]
    ensures ReadTemplate(numbers, Translate("$" + d)) ==
            if IsInteger(d) then Some([Index(ValueIn(if d[0] == '0' then 8 else 10, d))])
            else if numbers.Lenient? then Some([Index(ValueIn(10, d))])
            else None
    ensures ReadTemplate(numbers, Translate("$" + d)) == Some(Meaning("$" + d)) <==> Plain(numbers, d)
    ensures Refused(numbers, Translate("$" + d)) <==> !IsInteger(d) && numbers.Strict?
  {
    OnlyIndex(d);
    RefusedIndexAction(numbers, d);
    ReadIndexAction(numbers, d, "");
    EmptyTemplate(numbers);
    PlainNumber(numbers, d);
    if ReadNumber(numbers, d).Some? {
      var x := Index(ReadNumber(numbers, d).value);
      assert [x] + [] == [x];
      assert [x] == [Index(ValueIn(10, d))] <==> [x][0] == [Index(ValueIn(10, d))][0];
    }
  }

  lemma RefusedIndexAction(numbers: Numbers, d: string)
    requires d != "" && forall i | 0 <= i < |d| :: Digit(d[i])
    ensures Refused(numbers, INDEX_OPEN + d + CLOSE + "") <==> ReadNumber(numbers, d).None?
  {
    var t := INDEX_OPEN + d + CLOSE + "";
    var rest := t[|INDEX_OPEN|..];
    assert rest == d + CLOSE;
    DigitRunOf(d, CLOSE);
    assert INDEX_OPEN <= t && t[..2] == OPEN;
    assert rest[..|d|] == d && rest[|d|..] == CLOSE && rest[|d| + 2..] == "";
  }

  lemma EmptyTemplate(numbers: Numbers)
    ensures ReadTemplate(numbers, "") == Some([])
  {}

  lemma WholeIndex(d: string)
    requires d != "" && forall i | 0 <= i < |d| :: Digit(d[i])
    ensures AtIndex("$" + d) && IndexDigits("$" + d) == d && AfterIndex("$" + d) == ""
  {
    var format := "$" + d;
    assert format[1..] == d;
    DigitRunOf(d, "");
    assert d + "" == d;
  }

  lemma OnlyIndex(d: string)
    requires d != "" && forall i | 0 <= i < |d| :: Digit(d[i])
    ensures Meaning("$" + d) == [Index(ValueIn(10, d))]
    ensures Translate("$" + d) == INDEX_OPEN + d + CLOSE + ""
  {
    WholeIndex(d);
    var format := "$" + d;
    assert Meaning(format) == [Index(ValueIn(10, d))] + Meaning("");
    assert Translate(format) == "{{index . " + d + "}}" + Translate("");
  }
}
