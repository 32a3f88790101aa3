// Searching a text for one of several literals, and the regular expression
// that asks for it.
module Literals {
  import opened Options
  import opened Strings

  // --- leftmost-first search for an alternation of literals ---

  // The first alternative that the text begins with.
  function FirstAt(alts: seq<string>, text: string): Option<string> {
    if alts == [] then None
    else if alts[0] <= text then Some(alts[0])
    else FirstAt(alts[1..], text)
  }

  // What a regexp search for the alternation finds: the earliest position where
  // any alternative matches, and there the first one in order.
  function Find(alts: seq<string>, text: string): Option<string> {
    if FirstAt(alts, text).Some? then FirstAt(alts, text)
    else if text == "" then None
    else Find(alts, text[1..])
  }

  // FindString does not tell an empty match from none.
  function FindString(alts: seq<string>, text: string): string {
    if Find(alts, text).Some? then Find(alts, text).value else ""
  }

  predicate OccursAt(literal: string, text: string, p: nat) {
    p <= |text| && literal <= text[p..]
  }

  predicate Occurs(literal: string, text: string) {
    exists p | 0 <= p <= |text| :: OccursAt(literal, text, p)
  }

  // alts[i] at position p is the leftmost-first match.
  ghost predicate LeftmostFirst(alts: seq<string>, text: string, p: nat, i: nat) {
    && i < |alts| && OccursAt(alts[i], text, p)
    && (forall q, j | 0 <= q < p && 0 <= j < |alts| :: !OccursAt(alts[j], text, q))
    && (forall j | 0 <= j < i :: !OccursAt(alts[j], text, p))
  }

  lemma {:induction false} FirstAtIs(alts: seq<string>, text: string) returns (i: nat)
    ensures i <= |alts| && forall j | 0 <= j < i :: !(alts[j] <= text)
    ensures FirstAt(alts, text) == if i == |alts| then None else Some(alts[i])
    ensures i < |alts| ==> alts[i] <= text
  {
    if alts == [] || alts[0] <= text {
      i := 0;
    } else {
      var k := FirstAtIs(alts[1..], text);
      i := k + 1;
      forall j | 0 <= j < i ensures !(alts[j] <= text) {
        if j > 0 { assert alts[j] == alts[1..][j - 1]; }
      }
    }
  }

  // A search that succeeds finds the leftmost-first match.
  lemma {:induction false} FoundIsLeftmostFirst(alts: seq<string>, text: string) returns (p: nat, i: nat)
    requires Find(alts, text).Some?
    ensures LeftmostFirst(alts, text, p, i) && Find(alts, text) == Some(alts[i])
    decreases |text|
  {
    var k := FirstAtIs(alts, text);
    assert text[0..] == text;
    if k < |alts| {
      p, i := 0, k;
    } else {
      var p', i' := FoundIsLeftmostFirst(alts, text[1..]);
      p, i := p' + 1, i';
      assert text[1..][p'..] == text[p..];
      forall q, j | 0 <= q < p && 0 <= j < |alts| ensures !OccursAt(alts[j], text, q) {
        if q > 0 {
          assert text[q..] == text[1..][q - 1..];
          assert !OccursAt(alts[j], text[1..], q - 1);
        }
      }
      forall j | 0 <= j < i ensures !OccursAt(alts[j], text, p) {
        assert !OccursAt(alts[j], text[1..], p');
      }
    }
  }

  // A search that fails has nothing to find.
  lemma {:induction false} NotFoundNowhere(alts: seq<string>, text: string, j: nat, q: nat)
    requires Find(alts, text).None? && j < |alts|
    ensures !OccursAt(alts[j], text, q)
    decreases |text|
  {
    var k := FirstAtIs(alts, text);
    assert text[0..] == text;
    if 0 < q <= |text| {
      NotFoundNowhere(alts, text[1..], j, q - 1);
      assert text[q..] == text[1..][q - 1..];
    }
  }

  // --- the order of the alternatives ---

  // The set written as a list without repetition, in some order.
  ghost predicate IsOrder(alts: seq<string>, literals: set<string>) {
    && (forall a :: a in alts <==> a in literals)
    && (forall i, j | 0 <= i < j < |alts| :: alts[i] != alts[j])
  }

  predicate PrefixFree(literals: set<string>) {
    forall a, b | a in literals && b in literals && a <= b :: a == b
  }

  lemma PrefixesCompare(a: string, b: string, text: string)
    requires a <= text && b <= text && |a| <= |b|
    ensures a <= b
  {
    assert a == text[..|a|] && b == text[..|b|];
  }

  lemma SameFirstAt(one: seq<string>, two: seq<string>, literals: set<string>, text: string)
    requires IsOrder(one, literals) && IsOrder(two, literals) && PrefixFree(literals)
    ensures FirstAt(one, text) == FirstAt(two, text)
  {
    var i := FirstAtIs(one, text);
    var j := FirstAtIs(two, text);
    assert i < |one| ==> one[i] in two;
    assert j < |two| ==> two[j] in one;
    if i < |one| && j < |two| {
      assert one[i] in literals && two[j] in literals;
      if |one[i]| <= |two[j]| { PrefixesCompare(one[i], two[j], text); }
      else { PrefixesCompare(two[j], one[i], text); }
    }
  }

  lemma {:induction false} SameFind(one: seq<string>, two: seq<string>, literals: set<string>, text: string)
    requires IsOrder(one, literals) && IsOrder(two, literals) && PrefixFree(literals)
    ensures Find(one, text) == Find(two, text)
    decreases |text|
  {
    SameFirstAt(one, two, literals, text);
    if text != "" { SameFind(one, two, literals, text[1..]); }
  }

  ghost predicate OrderIrrelevant(literals: set<string>) {
    forall one, two, text | IsOrder(one, literals) && IsOrder(two, literals) ::
      Find(one, text) == Find(two, text)
  }

  lemma {:induction false} SomeOrder(literals: set<string>) returns (alts: seq<string>)
    ensures IsOrder(alts, literals)
  {
    alts := [];
    if literals != {} {
      var a :| a in literals;
      var rest := SomeOrder(literals - {a});
      alts := [a] + rest;
    }
  }

  lemma OrderFrom(literals: set<string>, a: string) returns (alts: seq<string>)
    requires a in literals
    ensures IsOrder(alts, literals) && alts[0] == a
  {
    var rest := SomeOrder(literals - {a});
    alts := [a] + rest;
  }

  // The arbitrary order in which a map is iterated does not matter exactly when
  // no literal is a proper prefix of another.
  lemma OrderIrrelevantIff(literals: set<string>)
    ensures OrderIrrelevant(literals) <==> PrefixFree(literals)
  {
    if PrefixFree(literals) {
      forall one, two, text | IsOrder(one, literals) && IsOrder(two, literals)
        ensures Find(one, text) == Find(two, text)
      {
        SameFind(one, two, literals, text);
      }
    } else {
      var a, b :| a in literals && b in literals && a <= b && a != b;
      var one := OrderFrom(literals, a);
      var two := OrderFrom(literals, b);
      assert Find(one, b) == Some(a) && Find(two, b) == Some(b);
    }
  }

  // --- the regular expression ---

  predicate Meta(c: char) {
    c in "\\.+*?()|[]{}^$"
  }

  // regexp.QuoteMeta
  function Quote(s: string): string {
    if s == "" then "" else QuoteChar(s[0]) + Quote(s[1..])
  }

  function QuoteAll(alts: seq<string>): seq<string> {
    if alts == [] then [] else [Quote(alts[0])] + QuoteAll(alts[1..])
  }

  // The quoted literals with "|" between them.
  function PatternOf(alts: seq<string>): string {
    if alts == [] then ""
    else if |alts| == 1 then Quote(alts[0])
    else Quote(alts[0]) + "|" + PatternOf(alts[1..])
  }

  lemma {:induction false} PatternIsJoin(alts: seq<string>)
    ensures Join(QuoteAll(alts), "|") == PatternOf(alts)
    ensures |QuoteAll(alts)| == |alts|
  {
    if alts != [] {
      PatternIsJoin(alts[1..]);
      assert QuoteAll(alts)[1..] == QuoteAll(alts[1..]);
    }
  }

  lemma {:induction false} QuoteAllMore(alts: seq<string>, a: string)
    ensures QuoteAll(alts + [a]) == QuoteAll(alts) + [Quote(a)]
  {
    if alts == [] {
      assert alts + [a] == [a];
    } else {
      QuoteAllMore(alts[1..], a);
      assert (alts + [a])[1..] == alts[1..] + [a];
    }
  }

  // Reads a pattern as an alternation of literals; None if it is anything else.
  function ReadPattern(p: string): (r: Option<seq<string>>)
    ensures r.Some? ==> r.value != []
  {
    if p == "" then Some([""])
    else if p[0] == '|' then
      var r := ReadPattern(p[1..]);
      if r.Some? then Some([""] + r.value) else None
    else if p[0] == '\\' then
      if |p| >= 2 && Meta(p[1]) then Prepend(p[1], ReadPattern(p[2..])) else None
    else if Meta(p[0]) then None
    else Prepend(p[0], ReadPattern(p[1..]))
  }

  function Prepend(c: char, r: Option<seq<string>>): (r': Option<seq<string>>)
    requires r.Some? ==> r.value != []
    ensures r'.Some? ==> r'.value != []
  {
    if r.Some? then Some([[c] + r.value[0]] + r.value[1..]) else None
  }

  function QuoteChar(c: char): string {
    if Meta(c) then ['\\', c] else [c]
  }

  // Exactly these characters get a backslash.
  lemma QuotedExactly(c: char)
    ensures Quote([c]) ==
            if c == '\\' || c == '.' || c == '+' || c == '*' || c == '?' || c == '(' || c == ')' || c == '|'
               || c == '[' || c == ']' || c == '{' || c == '}' || c == '^' || c == '$'
            then ['\\', c] else [c]
  {
    assert [c][1..] == "";
    assert Quote([c]) == QuoteChar(c) + "";
  }

  // Quoting goes character by character.
  lemma {:induction false} QuoteConcat(a: string, b: string)
    ensures Quote(a + b) == Quote(a) + Quote(b)
  {
    if a == "" {
      assert a + b == b;
    } else {
      QuoteConcat(a[1..], b);
      assert (a + b)[1..] == a[1..] + b;
    }
  }

  lemma ReadChar(c: char, tail: string)
    ensures ReadPattern(QuoteChar(c) + tail) == Prepend(c, ReadPattern(tail))
  {
    var p := QuoteChar(c) + tail;
    if Meta(c) { assert p[2..] == tail; } else { assert p[1..] == tail; }
  }

  // s put before the first alternative.
  function Glue(s: string, alts: seq<string>): seq<string>
    requires alts != []
  {
    [s + alts[0]] + alts[1..]
  }

  lemma GlueNothing(alts: seq<string>)
    requires alts != []
    ensures Glue("", alts) == alts
  {
    assert "" + alts[0] == alts[0];
  }

  lemma GlueChar(c: char, s: string, alts: seq<string>)
    requires alts != []
    ensures Prepend(c, Some(Glue(s, alts))) == Some(Glue([c] + s, alts))
  {
    assert [c] + (s + alts[0]) == ([c] + s) + alts[0];
  }

  lemma {:induction false} ReadQuoted(s: string, rest: string)
    requires ReadPattern(rest).Some?
    ensures ReadPattern(Quote(s) + rest) == Some(Glue(s, ReadPattern(rest).value))
  {
    var r := ReadPattern(rest).value;
    if s == "" {
      assert Quote(s) + rest == rest;
      GlueNothing(r);
    } else {
      ReadQuoted(s[1..], rest);
      ReadChar(s[0], Quote(s[1..]) + rest);
      assert Quote(s) + rest == QuoteChar(s[0]) + (Quote(s[1..]) + rest);
      GlueChar(s[0], s[1..], r);
      assert [s[0]] + s[1..] == s;
    }
  }

  lemma ReadOne(a: string)
    ensures ReadPattern(Quote(a)) == Some([a])
  {
    ReadQuoted(a, "");
    assert Quote(a) + "" == Quote(a);
    assert a + "" == a;
    assert Glue(a, [""]) == [a];
    assert ReadPattern("") == Some([""]);
  }

  lemma ReadMore(a: string, p: string)
    requires ReadPattern(p).Some?
    ensures ReadPattern(Quote(a) + ("|" + p)) == Some([a] + ReadPattern(p).value)
  {
    var rest := "|" + p;
    assert rest[1..] == p;
    ReadQuoted(a, rest);
    var r := [""] + ReadPattern(p).value;
    assert ReadPattern(rest) == Some(r);
    assert a + "" == a && r[1..] == ReadPattern(p).value;
  }

  // Reading Build's pattern yields the literals back; without any literal it is
  // the single empty one.
  lemma {:induction false} PatternRoundTrip(alts: seq<string>)
    ensures ReadPattern(PatternOf(alts)) == Some(if alts == [] then [""] else alts)
  {
    if |alts| == 1 {
      ReadOne(alts[0]);
      assert alts == [alts[0]];
    } else if |alts| > 1 {
      PatternRoundTrip(alts[1..]);
      ReadMore(alts[0], PatternOf(alts[1..]));
      assert PatternOf(alts) == Quote(alts[0]) + ("|" + PatternOf(alts[1..]));
      assert [alts[0]] + alts[1..] == alts;
    }
  }

  lemma PatternOfPrepend(c: char, alts: seq<string>)
    requires alts != []
    ensures PatternOf([[c] + alts[0]] + alts[1..]) ==
            QuoteChar(c) + PatternOf(alts)
  {
    var first := [c] + alts[0];
    assert first[1..] == alts[0];
    var more := [first] + alts[1..];
    if |alts| > 1 {
      assert more[1..] == alts[1..];
      assert PatternOf(more) == Quote(first) + "|" + PatternOf(alts[1..]);
    }
  }

  // And nothing else reads like that: the pattern is determined by the list.
  lemma {:induction false} PatternUnique(p: string)
    requires ReadPattern(p).Some?
    ensures PatternOf(ReadPattern(p).value) == p
    decreases |p|
  {
    if p == "" {
    } else if p[0] == '|' {
      PatternUnique(p[1..]);
      var r := ReadPattern(p[1..]).value;
      assert ([""] + r)[1..] == r;
      assert PatternOf([""] + r) == Quote("") + "|" + PatternOf(r);
    } else if p[0] == '\\' {
      PatternUnique(p[2..]);
      PatternOfPrepend(p[1], ReadPattern(p[2..]).value);
    } else {
      PatternUnique(p[1..]);
      PatternOfPrepend(p[0], ReadPattern(p[1..]).value);
    }
  }
}
