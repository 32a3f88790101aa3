// Matching a text against many regular expressions with a search for their
// substrings first.
module Matcher {
  import opened Options
  import opened Literals
  import opened Strings

  // MustCompile(re).FindStringSubmatch(text): the groups, or nil.
  type Engine = (string, string) -> Option<seq<string>>

  // substring -> name is a bijection onto the names that have a regexp.
  ghost predicate Paired(substrings: map<string, string>, regexps: map<string, string>) {
    && (forall s | s in substrings :: substrings[s] in regexps)
    && (forall n | n in regexps :: exists s :: s in substrings && substrings[s] == n)
    && (forall s, t | s in substrings && t in substrings && substrings[s] == substrings[t] :: s == t)
  }

  // What Match returns when the literals are searched in the given order.
  function MatchIn(substrings: map<string, string>, regexps: map<string, string>, order: seq<string>,
                   engine: Engine, text: string): (string, Option<seq<string>>)
    requires Paired(substrings, regexps) && IsOrder(order, substrings.Keys)
  {
    var literal := FindString(order, text);
    if literal == "" then ("", None)
    else
      FoundIsListed(order, text);
      (substrings[literal], engine(regexps[substrings[literal]], text))
  }

  lemma FoundIsListed(order: seq<string>, text: string)
    ensures FindString(order, text) != "" ==> FindString(order, text) in order
  {
    if Find(order, text).Some? {
      var p, i := FoundIsLeftmostFirst(order, text);
    }
  }

  // There is no other leftmost-first match than the one found.
  lemma LeftmostFirstFound(order: seq<string>, text: string, p: nat, i: nat)
    requires LeftmostFirst(order, text, p, i)
    ensures Find(order, text) == Some(order[i])
  {
    if Find(order, text).None? {
      NotFoundNowhere(order, text, i, p);
    } else {
      var q, j := FoundIsLeftmostFirst(order, text);
      assert OccursAt(order[j], text, q) && OccursAt(order[i], text, p);
    }
  }

  ghost predicate OwnsLeftmost(substrings: map<string, string>, order: seq<string>, text: string, name: string) {
    exists p: nat, i: nat :: LeftmostFirst(order, text, p, i) && order[i] != ""
      && order[i] in substrings && substrings[order[i]] == name
  }

  // Match answers with groups exactly when the regexp that owns the
  // leftmost-first literal, if there is one and it is not empty, has them.
  lemma MatchIsLeftmostOwner(substrings: map<string, string>, regexps: map<string, string>, order: seq<string>,
                             engine: Engine, text: string, name: string, groups: seq<string>)
    requires Paired(substrings, regexps) && IsOrder(order, substrings.Keys)
    ensures MatchIn(substrings, regexps, order, engine, text) == (name, Some(groups)) <==>
            OwnsLeftmost(substrings, order, text, name) && name in regexps
            && engine(regexps[name], text) == Some(groups)
  {
    var literal := FindString(order, text);
    if literal != "" {
      var p, i := FoundIsLeftmostFirst(order, text);
      assert OwnsLeftmost(substrings, order, text, substrings[literal]);
    }
    if OwnsLeftmost(substrings, order, text, name) {
      var p: nat, i: nat :| LeftmostFirst(order, text, p, i) && order[i] != ""
        && order[i] in substrings && substrings[order[i]] == name;
      LeftmostFirstFound(order, text, p, i);
    }
  }

  // The name Match answers with, groups or not: that of the same owner.
  lemma NameIsLeftmostOwner(substrings: map<string, string>, regexps: map<string, string>, order: seq<string>,
                            engine: Engine, text: string)
    requires Paired(substrings, regexps) && IsOrder(order, substrings.Keys)
    ensures var name := MatchIn(substrings, regexps, order, engine, text).0;
      OwnsLeftmost(substrings, order, text, name)
      || (name == "" && forall n :: !OwnsLeftmost(substrings, order, text, n))
  {
    var literal := FindString(order, text);
    if literal != "" {
      var p, i := FoundIsLeftmostFirst(order, text);
    }
    forall n | OwnsLeftmost(substrings, order, text, n) ensures literal != "" {
      var p: nat, i: nat :| LeftmostFirst(order, text, p, i) && order[i] != ""
        && order[i] in substrings && substrings[order[i]] == n;
      LeftmostFirstFound(order, text, p, i);
    }
  }

  // The order in which Build meets the substrings makes no difference if none of
  // them is a proper prefix of another.
  lemma MatchDeterministic(substrings: map<string, string>, regexps: map<string, string>,
                           one: seq<string>, two: seq<string>, engine: Engine, text: string)
    requires Paired(substrings, regexps) && PrefixFree(substrings.Keys)
    requires IsOrder(one, substrings.Keys) && IsOrder(two, substrings.Keys)
    ensures MatchIn(substrings, regexps, one, engine, text) == MatchIn(substrings, regexps, two, engine, text)
  {
    SameFind(one, two, substrings.Keys, text);
  }

  // --- against trying every regexp ---

  // Every regexp matches only texts that contain its own substring, which is
  // not empty.
  ghost predicate Guarded(substrings: map<string, string>, regexps: map<string, string>, engine: Engine, text: string)
    requires Paired(substrings, regexps)
  {
    forall s | s in substrings && engine(regexps[substrings[s]], text).Some? :: s != "" && Occurs(s, text)
  }

  ghost predicate OneOccurs(substrings: map<string, string>, text: string) {
    forall s, t | s in substrings && t in substrings && Occurs(s, text) && Occurs(t, text) :: s == t
  }

  // Trying them all gives the same, both ways.
  lemma AgreesWithExhaustive(substrings: map<string, string>, regexps: map<string, string>, order: seq<string>,
                             engine: Engine, text: string, name: string, groups: seq<string>)
    requires Paired(substrings, regexps) && IsOrder(order, substrings.Keys)
    requires Guarded(substrings, regexps, engine, text) && OneOccurs(substrings, text)
    ensures MatchIn(substrings, regexps, order, engine, text) == (name, Some(groups)) <==>
            name in regexps && engine(regexps[name], text) == Some(groups)
  {
    FoundIsListed(order, text);
    if name in regexps && engine(regexps[name], text) == Some(groups) {
      var s :| s in substrings && substrings[s] == name;
      OccurringFound(order, text, s);
    }
  }

  // Match says of every event what trying its regexp says.
  ghost predicate Exhaustive(substrings: map<string, string>, regexps: map<string, string>, order: seq<string>,
                             engine: Engine, text: string)
    requires Paired(substrings, regexps) && IsOrder(order, substrings.Keys)
  {
    forall name, groups :: MatchIn(substrings, regexps, order, engine, text) == (name, Some(groups)) <==>
                           name in regexps && engine(regexps[name], text) == Some(groups)
  }

  // The regexp that s stands for can match the text: all substrings that stand
  // for it are in the text, and none is empty.
  ghost predicate Candidate(substrings: map<string, string>, regexps: map<string, string>, text: string, s: string)
    requires Paired(substrings, regexps) && s in substrings
  {
    forall t | t in substrings && regexps[substrings[t]] == regexps[substrings[s]] :: t != "" && Occurs(t, text)
  }

  // An engine for which only the regexp of s matches.
  function OnlyMatches(re: string): Engine {
    (other: string, _) => if other == re then Some([]) else None
  }

  lemma CandidateFound(substrings: map<string, string>, regexps: map<string, string>, order: seq<string>,
                       text: string, s: string)
    requires Paired(substrings, regexps) && IsOrder(order, substrings.Keys)
    requires s in substrings && Candidate(substrings, regexps, text, s)
    requires Exhaustive(substrings, regexps, order, OnlyMatches(regexps[substrings[s]]), text)
    ensures FindString(order, text) == s
  {
    var name, engine := substrings[s], OnlyMatches(regexps[substrings[s]]);
    assert engine(regexps[name], text) == Some([]);
    assert MatchIn(substrings, regexps, order, engine, text) == (name, Some([]));
    FoundIsListed(order, text);
  }

  lemma OnlyFoundMatches(substrings: map<string, string>, regexps: map<string, string>, order: seq<string>,
                         engine: Engine, text: string)
    requires Paired(substrings, regexps) && IsOrder(order, substrings.Keys)
    requires Guarded(substrings, regexps, engine, text)
    requires forall s | s in substrings && Candidate(substrings, regexps, text, s) :: FindString(order, text) == s
    ensures Exhaustive(substrings, regexps, order, engine, text)
  {
    FoundIsListed(order, text);
    forall name, groups | name in regexps && engine(regexps[name], text) == Some(groups)
      ensures MatchIn(substrings, regexps, order, engine, text) == (name, Some(groups))
    {
      var s :| s in substrings && substrings[s] == name;
      assert Candidate(substrings, regexps, text, s);
      assert s != "";
    }
  }

  // Match agrees with trying them all, whatever the regexps match within their
  // guards, exactly when every event that can match has the literal found.
  lemma AgreementExact(substrings: map<string, string>, regexps: map<string, string>, order: seq<string>, text: string)
    requires Paired(substrings, regexps) && IsOrder(order, substrings.Keys)
    ensures (forall engine: Engine | Guarded(substrings, regexps, engine, text) ::
              Exhaustive(substrings, regexps, order, engine, text)) <==>
            (forall s | s in substrings && Candidate(substrings, regexps, text, s) :: FindString(order, text) == s)
  {
    if forall engine: Engine | Guarded(substrings, regexps, engine, text) ::
         Exhaustive(substrings, regexps, order, engine, text) {
      forall s | s in substrings && Candidate(substrings, regexps, text, s) ensures FindString(order, text) == s {
        assert Guarded(substrings, regexps, OnlyMatches(regexps[substrings[s]]), text);
        CandidateFound(substrings, regexps, order, text, s);
      }
    }
    if forall s | s in substrings && Candidate(substrings, regexps, text, s) :: FindString(order, text) == s {
      forall engine: Engine | Guarded(substrings, regexps, engine, text)
        ensures Exhaustive(substrings, regexps, order, engine, text)
      {
        OnlyFoundMatches(substrings, regexps, order, engine, text);
      }
    }
  }

  // When no substring is empty and no two events have the same regexp, that is
  // exactly when at most one substring is in the text.
  lemma AgreementIffOneOccurs(substrings: map<string, string>, regexps: map<string, string>, order: seq<string>,
                              text: string)
    requires Paired(substrings, regexps) && IsOrder(order, substrings.Keys)
    requires "" !in substrings && forall m, n | m in regexps && n in regexps && regexps[m] == regexps[n] :: m == n
    ensures (forall engine: Engine | Guarded(substrings, regexps, engine, text) ::
              Exhaustive(substrings, regexps, order, engine, text)) <==> OneOccurs(substrings, text)
  {
    AgreementExact(substrings, regexps, order, text);
    forall s | s in substrings ensures Candidate(substrings, regexps, text, s) <==> Occurs(s, text) {}
    forall s | s in substrings && Occurs(s, text)
      ensures Find(order, text).Some? && Find(order, text).value in substrings && Occurs(Find(order, text).value, text)
    {
      OccurringFound(order, text, s);
    }
  }

  lemma OccurringFound(order: seq<string>, text: string, s: string)
    requires s in order && Occurs(s, text)
    ensures Find(order, text).Some? && Find(order, text).value in order && Occurs(Find(order, text).value, text)
  {
    var q :| 0 <= q <= |text| && OccursAt(s, text, q);
    var k :| 0 <= k < |order| && order[k] == s;
    if Find(order, text).None? { NotFoundNowhere(order, text, k, q); }
    var p, i := FoundIsLeftmostFirst(order, text);
  }

  // With two substrings in the text an event can be missed.
  lemma SecondOccurrenceMissed()
    returns (substrings: map<string, string>, regexps: map<string, string>, engine: Engine)
    ensures Paired(substrings, regexps) && Guarded(substrings, regexps, engine, "ab")
    ensures IsOrder(["a", "b"], substrings.Keys) && IsOrder(["b", "a"], substrings.Keys)
    ensures "B" in regexps && engine(regexps["B"], "ab") == Some(["b"])
    ensures MatchIn(substrings, regexps, ["a", "b"], engine, "ab").1.None?
    ensures MatchIn(substrings, regexps, ["b", "a"], engine, "ab").1.None?
  {
    substrings, regexps := map["a" := "A", "b" := "B"], map["A" := "a$", "B" := "b$"];
    engine := (re: string, text: string) => if re == "b$" then Some(["b"]) else None;
    assert substrings["a"] == "A" && substrings["b"] == "B";
    assert "ab"[1..] == "b" && OccursAt("b", "ab", 1);
    assert FirstAt(["a", "b"], "ab") == Some("a");
    assert ["b", "a"][1..] == ["a"] && "b"[0] != "ab"[0];
    assert FirstAt(["b", "a"], "ab") == FirstAt(["a"], "ab") == Some("a");
  }

  // --- the matcher object ---

  datatype AddOutcome = AddDone | DuplicateSubstring | DuplicateName | BadRegexp

  class MultiRegexpMatcher {
    const engine: Engine
    const compiles: string -> bool       // does MustCompile succeed?
    var substrings: map<string, string>
    var regexps: map<string, string>
    var pattern: Option<string>          // the source of substringsRegexp
    ghost var order: seq<string>         // how Build met the substrings

    constructor (engine: Engine, compiles: string -> bool)
      ensures Valid() && substrings == map[] && regexps == map[] && pattern == None
      ensures this.engine == engine && this.compiles == compiles
    {
      this.engine, this.compiles := engine, compiles;
      substrings, regexps, pattern, order := map[], map[], None, [];
    }

    ghost predicate Valid()
      reads this
    {
      Paired(substrings, regexps)
    }

    ghost predicate Built()
      reads this
    {
      Valid() && pattern == Some(PatternOf(order)) && IsOrder(order, substrings.Keys)
    }

    // Anything but AddDone ends the process: a duplicate before anything is added,
    // a regexp that does not compile when its substring has been.
    method MustAdd(name: string, substring: string, re: string) returns (outcome: AddOutcome)
      requires Valid()
      modifies this`substrings, this`regexps
      ensures !outcome.BadRegexp? ==> Valid()
      ensures outcome == if substring in old(substrings) then DuplicateSubstring
                         else if name in old(regexps) then DuplicateName
                         else if compiles(re) then AddDone else BadRegexp
      ensures substrings == if outcome.AddDone? || outcome.BadRegexp? then old(substrings)[substring := name]
                            else old(substrings)
      ensures regexps == if outcome.AddDone? then old(regexps)[name := re] else old(regexps)
    {
      if substring in substrings { return DuplicateSubstring; }
      if name in regexps { return DuplicateName; }
      PairedMore(substrings, regexps, name, substring, re);
      substrings := substrings[substring := name];
      if !compiles(re) { return BadRegexp; }
      regexps := regexps[name := re];
      outcome := AddDone;
    }

    method Build()
      requires Valid()
      modifies this`pattern, this`order
      ensures Built()
    {
      var escaped: seq<string> := [];
      var todo := substrings.Keys;
      order := [];
      while todo != {}
        invariant todo <= substrings.Keys && IsOrder(order, substrings.Keys - todo)
        invariant escaped == QuoteAll(order)
        decreases |todo|
      {
        var substring :| substring in todo;
        todo := todo - {substring};
        QuoteAllMore(order, substring);
        escaped := escaped + [Quote(substring)];
        order := order + [substring];
      }
      PatternIsJoin(order);
      pattern := Some(Join(escaped, "|"));
    }

    // Both lookups succeed whenever a literal is found.
    method Match(text: string) returns (name: string, results: Option<seq<string>>)
      requires Built()
      ensures (name, results) == MatchIn(substrings, regexps, order, engine, text)
    {
      PatternRoundTrip(order);
      var substring := FindString(ReadPattern(pattern.value).value, text);
      if order == [] { NothingToFind(text); }
      if substring == "" { return "", None; }
      FoundIsListed(order, text);
      name := substrings[substring];
      results := engine(regexps[name], text);
    }
  }

  lemma PairedMore(substrings: map<string, string>, regexps: map<string, string>,
                   name: string, substring: string, re: string)
    requires Paired(substrings, regexps) && substring !in substrings && name !in regexps
    ensures Paired(substrings[substring := name], regexps[name := re])
  {
    var more := substrings[substring := name];
    var names := regexps[name := re].Keys;
    forall n | n in names ensures exists s :: s in more && more[s] == n {
      if n == name {
        assert more[substring] == n;
      } else {
        var s :| s in substrings && substrings[s] == n;
        assert more[s] == n;
      }
    }
  }

  // Without any substring the pattern is empty, and so is every match.
  lemma NothingToFind(text: string)
    ensures FindString([""], text) == "" && FindString([], text) == ""
  {
    assert "" <= text;
    assert FirstAt([""], text) == Some("");
    if Find([], text).Some? { var p, i := FoundIsLeftmostFirst([], text); }
  }
}
