// Groups of event parsers: which event, if any, a line of a process becomes.
module Sieve {
  import opened Options
  import opened Literals
  import opened Matcher
  import opened Templates

  // A handler made by ToEventParser: from a format (Other if that has template
  // actions of its own), from a JSON template, or none for an unknown handler type.
  datatype Handler =
    | Simple(severity: string, program: seq<Token>)
    | Other(severity: string, template: string)
    | Json(severity: string, template: string)
    | NoHandler

  // What the model does not look into: decoding a group as JSON and rendering a
  // template with it, and executing a template with other actions on the groups.
  datatype Renderers = Renderers(
    json: (string, string) -> Option<string>,
    other: (string, seq<string>) -> Option<string>)

  datatype Handled = Described(desc: string, severity: string) | HandlerError | HandlerPanic

  // HandleEvent.  The JSON handler reads results[1] after making sure only that
  // there is a results[0]; a missing handler is a nil dereference.
  function Handle(h: Handler, results: seq<string>, renderers: Renderers): Handled {
    match h
    case Simple(severity, program) =>
      var out := Execute(program, results);
      if out.Some? then Described(out.value, severity) else HandlerError
    case Other(severity, template) =>
      var out := renderers.other(template, results);
      if out.Some? then Described(out.value, severity) else HandlerError
    case Json(severity, template) =>
      if |results| < 1 then HandlerError
      else if |results| < 2 then HandlerPanic
      else
        var out := renderers.json(template, results[1]);
        if out.Some? then Described(out.value, severity) else HandlerError
    case NoHandler => HandlerPanic
  }

  class Event {
    var Type: string
    var Process: string
    var Desc: string
    var Severity: string

    constructor (kind: string, process: string)
      ensures Type == kind && Process == process && Desc == "" && Severity == "INFO"
    {
      Type, Process, Desc, Severity := kind, process, "", "INFO";
    }
  }

  // The description that a handler gives of the groups: a simple handler what its
  // program gives, a JSON handler what its template gives for the first group of
  // the regexp, which is results[1].
  predicate Describes(h: Handler, results: seq<string>, renderers: Renderers, desc: string) {
    match h
    case Simple(_, program) => InRange(program, results) && Execute(program, results) == Some(desc)
    case Other(_, template) => renderers.other(template, results) == Some(desc)
    case Json(_, template) => |results| > 1 && renderers.json(template, results[1]) == Some(desc)
    case NoHandler => false
  }

  predicate ErrsOn(h: Handler, results: seq<string>, renderers: Renderers) {
    match h
    case Simple(_, program) => exists i | 0 <= i < |program| && program[i].Index? :: program[i].n >= |results|
    case Other(_, template) => renderers.other(template, results).None?
    case Json(_, template) => results == [] || (|results| > 1 && renderers.json(template, results[1]).None?)
    case NoHandler => false
  }

  predicate PanicsOn(h: Handler, results: seq<string>) {
    h.NoHandler? || (h.Json? && |results| == 1)
  }

  // A simple handler succeeds exactly when every index of its format is in range,
  // and touches nothing of the event otherwise.
  method HandleEvent(h: Handler, results: seq<string>, renderers: Renderers, event: Event) returns (r: Handled)
    modifies event`Desc, event`Severity
    ensures r == Handle(h, results, renderers)
    ensures h.Simple? ==> (r.Described? <==> InRange(h.program, results))
    ensures r.HandlerPanic? <==> PanicsOn(h, results)
    ensures r.HandlerError? <==> ErrsOn(h, results, renderers)
    ensures r.Described? ==> Describes(h, results, renderers, r.desc)
    ensures r.Described? ==> event.Desc == r.desc && event.Severity == r.severity == h.severity
    ensures !r.Described? ==> event.Desc == old(event.Desc) && event.Severity == old(event.Severity)
  {
    r := Handle(h, results, renderers);
    if h.Simple? { ExecuteSucceedsIff(h.program, results); }
    if r.Described? {
      event.Desc := r.desc;
      event.Severity := r.severity;
    }
  }

  // --- specifications of event parsers ---

  class EventParserSpec {
    var Substring: string
    var Re: string
    var Sample: string
    var Format: string
    var Severity: string
    var HandlerType: string

    constructor (substring: string, re: string, sample: string, format: string, severity: string, kind: string)
      ensures Substring == substring && Re == re && Sample == sample && Format == format
      ensures Severity == severity && HandlerType == kind
    {
      Substring, Re, Sample, Format, Severity, HandlerType := substring, re, sample, format, severity, kind;
    }
  }

  class EventParser {
    var Substring: string
    var Re: string
    var Sample: string
    var Handler: Handler

    constructor (substring: string, re: string, sample: string, handler: Handler)
      ensures Substring == substring && Re == re && Sample == sample && Handler == handler
    {
      Substring, Re, Sample, Handler := substring, re, sample, handler;
    }
  }

  // template.Must(Parse(t)) succeeds.
  predicate Parses(numbers: Numbers, t: string, parses: string -> bool) {
    !Refused(numbers, t) && (OnlyIndexes(t) || parses(t))
  }

  predicate IsSimple(kind: string) {
    kind == "" || kind == "simple"
  }

  // null where template.Must panics: always on a number it refuses, and for
  // templates with other actions when they do not parse.  A clean format gives a
  // handler that means what the format says.
  method ToEventParser(p: EventParserSpec, numbers: Numbers, parses: string -> bool) returns (e: EventParser?)
    modifies p`Severity
    ensures p.Severity == if old(p.Severity) == "" then "INFO" else old(p.Severity)
    ensures e == null <==>
            (IsSimple(p.HandlerType) && !Parses(numbers, Translate(p.Format), parses))
            || (p.HandlerType == "json" && !parses(p.Format))
    ensures e != null ==>
              fresh(e) && e.Substring == p.Substring && e.Re == p.Re && e.Sample == p.Sample
    ensures e != null ==> (e.Handler.NoHandler? <==> !IsSimple(p.HandlerType) && p.HandlerType != "json")
    ensures e != null && p.HandlerType == "json" ==> e.Handler == Json(p.Severity, p.Format)
    ensures e != null && IsSimple(p.HandlerType) ==>
              var t := Translate(p.Format);
              e.Handler == if ReadTemplate(numbers, t).Some? then Simple(p.Severity, ReadTemplate(numbers, t).value)
                           else Other(p.Severity, t)
    ensures p.HandlerType == "" || p.HandlerType == "simple" ==>
              e == null || e.Handler.Simple? || e.Handler.Other?
    ensures p.HandlerType !in {"", "simple", "json"} ==> e != null && e.Handler == NoHandler
    ensures IsSimple(p.HandlerType) && Clean(numbers, p.Format) ==>
              e != null && e.Handler == Simple(p.Severity, Meaning(p.Format))
  {
    if p.Severity == "" { p.Severity := "INFO"; }
    var handler := NoHandler;
    if IsSimple(p.HandlerType) {
      TranslationExact(numbers, p.Format);
      var t := Translate(p.Format);
      ReadUnlessRefused(numbers, t);
      if !Parses(numbers, t, parses) { return null; }
      handler := if OnlyIndexes(t) then Simple(p.Severity, ReadTemplate(numbers, t).value) else Other(p.Severity, t);
    } else if p.HandlerType == "json" {
      if !parses(p.Format) { return null; }
      handler := Json(p.Severity, p.Format);
    }
    e := new EventParser(p.Substring, p.Re, p.Sample, handler);
  }

  // --- groups as values ---

  datatype Spec = Spec(substring: string, re: string, handler: Handler)

  type Group = map<string, Spec>

  predicate Distinct(g: Group) {
    forall m, n | m in g && n in g && g[m].substring == g[n].substring :: m == n
  }

  function Owners(g: Group): map<string, string>
    requires Distinct(g)
  {
    map n | n in g :: g[n].substring := n
  }

  function Regexps(g: Group): map<string, string> {
    map n | n in g :: g[n].re
  }

  lemma OwnersPaired(g: Group)
    requires Distinct(g)
    ensures Paired(Owners(g), Regexps(g))
    ensures forall n | n in g :: g[n].substring in Owners(g) && Owners(g)[g[n].substring] == n
  {
    forall n | n in g ensures exists s :: s in Owners(g) && Owners(g)[s] == n {
      assert Owners(g)[g[n].substring] == n;
    }
  }

  datatype Outcome = Parsed(kind: string, process: string, desc: string, severity: string)
                   | Nothing | Failed | Panicked

  function Conclude(kind: string, process: string, h: Handled): Outcome {
    match h
    case Described(desc, severity) => Parsed(kind, process, desc, severity)
    case HandlerError => Failed
    case HandlerPanic => Panicked
  }

  // What one group makes of a line: None if it does not match.
  ghost function Attempt(g: Group, order: seq<string>, engine: Engine, renderers: Renderers,
                         process: string, text: string): Option<Outcome>
    requires Distinct(g) && IsOrder(order, Owners(g).Keys)
  {
    OwnersPaired(g);
    var (name, results) := MatchIn(Owners(g), Regexps(g), order, engine, text);
    if results.None? then None
    else
      MatchedIsMember(g, order, engine, text);
      Some(Conclude(name, process, Handle(g[name].handler, results.value, renderers)))
  }

  lemma MatchedIsMember(g: Group, order: seq<string>, engine: Engine, text: string)
    requires Distinct(g) && IsOrder(order, Owners(g).Keys) && Paired(Owners(g), Regexps(g))
    ensures MatchIn(Owners(g), Regexps(g), order, engine, text).1.Some? ==>
            MatchIn(Owners(g), Regexps(g), order, engine, text).0 in g
  {
    FoundIsListed(order, text);
  }

  const STAR := "__all__"

  ghost predicate Usable(tree: map<string, Group>, orders: map<string, seq<string>>) {
    forall g | g in tree :: g in orders && Distinct(tree[g]) && IsOrder(orders[g], Owners(tree[g]).Keys)
  }

  ghost function AttemptIn(tree: map<string, Group>, orders: map<string, seq<string>>, engine: Engine,
                           renderers: Renderers, group: string, process: string, text: string): Option<Outcome>
    requires Usable(tree, orders)
  {
    if group in tree then Attempt(tree[group], orders[group], engine, renderers, process, text) else None
  }

  // The process's own group first, then the group for all.
  ghost function Verdict(tree: map<string, Group>, orders: map<string, seq<string>>, engine: Engine,
                         renderers: Renderers, process: string, text: string): Outcome
    requires Usable(tree, orders)
  {
    var own := AttemptIn(tree, orders, engine, renderers, process, process, text);
    var star := AttemptIn(tree, orders, engine, renderers, STAR, process, text);
    if own.Some? then own.value else if star.Some? then star.value else Nothing
  }

  // Event n of group g owns the leftmost literal in the line, and its regexp gives
  // these groups.
  ghost predicate OwnerMatches(g: Group, order: seq<string>, engine: Engine, text: string,
                               n: string, groups: seq<string>)
    requires Distinct(g)
  {
    n in g && OwnsLeftmost(Owners(g), order, text, n) && engine(g[n].re, text) == Some(groups)
  }

  // A group's result comes from the owner of the leftmost literal.
  lemma AttemptIs(g: Group, order: seq<string>, engine: Engine, renderers: Renderers,
                  process: string, text: string, n: string, groups: seq<string>)
    requires Distinct(g) && IsOrder(order, Owners(g).Keys) && OwnerMatches(g, order, engine, text, n, groups)
    ensures Attempt(g, order, engine, renderers, process, text) ==
            Some(Conclude(n, process, Handle(g[n].handler, groups, renderers)))
  {
    OwnersPaired(g);
    MatchIsLeftmostOwner(Owners(g), Regexps(g), order, engine, text, n, groups);
  }

  lemma AttemptOwner(g: Group, order: seq<string>, engine: Engine, renderers: Renderers,
                     process: string, text: string) returns (n: string, groups: seq<string>)
    requires Distinct(g) && IsOrder(order, Owners(g).Keys)
    requires Attempt(g, order, engine, renderers, process, text).Some?
    ensures OwnerMatches(g, order, engine, text, n, groups)
  {
    OwnersPaired(g);
    var (name, results) := MatchIn(Owners(g), Regexps(g), order, engine, text);
    MatchIsLeftmostOwner(Owners(g), Regexps(g), order, engine, text, name, results.value);
    MatchedIsMember(g, order, engine, text);
    n, groups := name, results.value;
  }

  // No event of the group matches.
  ghost predicate NoMatch(tree: map<string, Group>, orders: map<string, seq<string>>, engine: Engine,
                          text: string, group: string)
    requires Usable(tree, orders)
  {
    group in tree ==> forall n, groups :: !OwnerMatches(tree[group], orders[group], engine, text, n, groups)
  }

  // Event n of a group decides what becomes of the line: of the group of the
  // process, or, if no event of that matches, of the group for all.
  ghost predicate Decides(tree: map<string, Group>, orders: map<string, seq<string>>, engine: Engine,
                          process: string, text: string, group: string, n: string, groups: seq<string>)
    requires Usable(tree, orders)
  {
    && group in tree && OwnerMatches(tree[group], orders[group], engine, text, n, groups)
    && (group == process || (group == "__all__" && NoMatch(tree, orders, engine, text, process)))
  }

  lemma AttemptIffMatch(tree: map<string, Group>, orders: map<string, seq<string>>, engine: Engine,
                        renderers: Renderers, process: string, text: string, group: string)
    requires Usable(tree, orders)
    ensures AttemptIn(tree, orders, engine, renderers, group, process, text).None? <==>
            NoMatch(tree, orders, engine, text, group)
  {
    if group in tree {
      var g, order := tree[group], orders[group];
      if Attempt(g, order, engine, renderers, process, text).Some? {
        var n, groups := AttemptOwner(g, order, engine, renderers, process, text);
      }
      forall n, groups | OwnerMatches(g, order, engine, text, n, groups)
        ensures Attempt(g, order, engine, renderers, process, text).Some?
      {
        AttemptIs(g, order, engine, renderers, process, text, n, groups);
      }
    }
  }

  lemma DecidedVerdict(tree: map<string, Group>, orders: map<string, seq<string>>, engine: Engine, renderers: Renderers,
                       process: string, text: string, group: string, n: string, groups: seq<string>)
    requires Usable(tree, orders) && Decides(tree, orders, engine, process, text, group, n, groups)
    ensures Verdict(tree, orders, engine, renderers, process, text) ==
            Conclude(n, process, Handle(tree[group][n].handler, groups, renderers))
  {
    AttemptIffMatch(tree, orders, engine, renderers, process, text, process);
    AttemptIs(tree[group], orders[group], engine, renderers, process, text, n, groups);
  }

  lemma Decider(tree: map<string, Group>, orders: map<string, seq<string>>, engine: Engine, renderers: Renderers,
                process: string, text: string) returns (group: string, n: string, groups: seq<string>)
    requires Usable(tree, orders)
    requires !NoMatch(tree, orders, engine, text, process) || !NoMatch(tree, orders, engine, text, "__all__")
    ensures Decides(tree, orders, engine, process, text, group, n, groups)
  {
    group := if NoMatch(tree, orders, engine, text, process) then "__all__" else process;
    n, groups :| OwnerMatches(tree[group], orders[group], engine, text, n, groups);
  }

  // Nothing, neither an event nor an error, comes of a line exactly when no event
  // matches, neither in the group of the process nor in the one for all.
  lemma VerdictNothingIff(tree: map<string, Group>, orders: map<string, seq<string>>, engine: Engine,
                          renderers: Renderers, process: string, text: string)
    requires Usable(tree, orders)
    ensures Verdict(tree, orders, engine, renderers, process, text) == Nothing <==>
            NoMatch(tree, orders, engine, text, process) && NoMatch(tree, orders, engine, text, "__all__")
  {
    if !NoMatch(tree, orders, engine, text, process) || !NoMatch(tree, orders, engine, text, "__all__") {
      var group, n, groups := Decider(tree, orders, engine, renderers, process, text);
      DecidedVerdict(tree, orders, engine, renderers, process, text, group, n, groups);
      ConcludeMeans(n, process, tree[group][n].handler, groups, renderers, "", "", "");
    } else {
      NobodyDecides(tree, orders, engine, renderers, process, text);
    }
  }

  lemma NobodyDecides(tree: map<string, Group>, orders: map<string, seq<string>>, engine: Engine,
                      renderers: Renderers, process: string, text: string)
    requires Usable(tree, orders)
    requires NoMatch(tree, orders, engine, text, process) && NoMatch(tree, orders, engine, text, "__all__")
    ensures Verdict(tree, orders, engine, renderers, process, text) == Nothing
  {
    AttemptIffMatch(tree, orders, engine, renderers, process, text, process);
    AttemptIffMatch(tree, orders, engine, renderers, process, text, "__all__");
  }

  // What a handler's outcome is as the result of parsing.
  lemma ConcludeMeans(n: string, process: string, h: Handler, groups: seq<string>, renderers: Renderers,
                      kind: string, desc: string, severity: string)
    ensures Conclude(n, process, Handle(h, groups, renderers)) != Nothing
    ensures Conclude(n, process, Handle(h, groups, renderers)) == Panicked <==> PanicsOn(h, groups)
    ensures Conclude(n, process, Handle(h, groups, renderers)) == Failed <==> ErrsOn(h, groups, renderers)
    ensures Conclude(n, process, Handle(h, groups, renderers)) == Parsed(kind, process, desc, severity) <==>
            n == kind && Describes(h, groups, renderers, desc) && h.severity == severity
  {
    if h.Simple? { ExecuteSucceedsIff(h.program, groups); }
  }

  // Parsing a line panics exactly when the handler of the event that decides does.
  lemma VerdictPanicsIff(tree: map<string, Group>, orders: map<string, seq<string>>, engine: Engine,
                         renderers: Renderers, process: string, text: string)
    requires Usable(tree, orders)
    ensures Verdict(tree, orders, engine, renderers, process, text) == Panicked <==>
            exists group, n, groups :: Decides(tree, orders, engine, process, text, group, n, groups)
              && PanicsOn(tree[group][n].handler, groups)
  {
    VerdictNothingIff(tree, orders, engine, renderers, process, text);
    if Verdict(tree, orders, engine, renderers, process, text) != Nothing {
      var group, n, groups := Decider(tree, orders, engine, renderers, process, text);
      DecidedVerdict(tree, orders, engine, renderers, process, text, group, n, groups);
      ConcludeMeans(n, process, tree[group][n].handler, groups, renderers, "", "", "");
    }
    forall group, n, groups | Decides(tree, orders, engine, process, text, group, n, groups)
                              && PanicsOn(tree[group][n].handler, groups)
      ensures Verdict(tree, orders, engine, renderers, process, text) == Panicked
    {
      DecidedVerdict(tree, orders, engine, renderers, process, text, group, n, groups);
      ConcludeMeans(n, process, tree[group][n].handler, groups, renderers, "", "", "");
    }
  }

  // Parsing a line gives an error exactly when the handler of the event that
  // decides does: an error of the group of the process is final.
  lemma VerdictFailedIff(tree: map<string, Group>, orders: map<string, seq<string>>, engine: Engine,
                         renderers: Renderers, process: string, text: string)
    requires Usable(tree, orders)
    ensures Verdict(tree, orders, engine, renderers, process, text) == Failed <==>
            exists group, n, groups :: Decides(tree, orders, engine, process, text, group, n, groups)
              && ErrsOn(tree[group][n].handler, groups, renderers)
  {
    VerdictNothingIff(tree, orders, engine, renderers, process, text);
    if Verdict(tree, orders, engine, renderers, process, text) != Nothing {
      var group, n, groups := Decider(tree, orders, engine, renderers, process, text);
      DecidedVerdict(tree, orders, engine, renderers, process, text, group, n, groups);
      ConcludeMeans(n, process, tree[group][n].handler, groups, renderers, "", "", "");
    }
    forall group, n, groups | Decides(tree, orders, engine, process, text, group, n, groups)
                              && ErrsOn(tree[group][n].handler, groups, renderers)
      ensures Verdict(tree, orders, engine, renderers, process, text) == Failed
    {
      DecidedVerdict(tree, orders, engine, renderers, process, text, group, n, groups);
      ConcludeMeans(n, process, tree[group][n].handler, groups, renderers, "", "", "");
    }
  }

  // An event comes of a line exactly when the event that decides is of that kind
  // and its handler gives that description; its process is the one asked for.
  lemma ParsedExactly(tree: map<string, Group>, orders: map<string, seq<string>>, engine: Engine, renderers: Renderers,
                      process: string, text: string, kind: string, desc: string, severity: string)
    requires Usable(tree, orders)
    ensures Verdict(tree, orders, engine, renderers, process, text) == Parsed(kind, process, desc, severity) <==>
            exists group, groups :: Decides(tree, orders, engine, process, text, group, kind, groups)
              && Describes(tree[group][kind].handler, groups, renderers, desc)
              && tree[group][kind].handler.severity == severity
    ensures var e := Verdict(tree, orders, engine, renderers, process, text); e.Parsed? ==> e.process == process
  {
    VerdictNothingIff(tree, orders, engine, renderers, process, text);
    if Verdict(tree, orders, engine, renderers, process, text) != Nothing {
      var group, n, groups := Decider(tree, orders, engine, renderers, process, text);
      DecidedVerdict(tree, orders, engine, renderers, process, text, group, n, groups);
      ConcludeMeans(n, process, tree[group][n].handler, groups, renderers, kind, desc, severity);
    }
    forall group, groups | Decides(tree, orders, engine, process, text, group, kind, groups)
                           && Describes(tree[group][kind].handler, groups, renderers, desc)
                           && tree[group][kind].handler.severity == severity
      ensures Verdict(tree, orders, engine, renderers, process, text) == Parsed(kind, process, desc, severity)
    {
      DecidedVerdict(tree, orders, engine, renderers, process, text, group, kind, groups);
      ConcludeMeans(kind, process, tree[group][kind].handler, groups, renderers, kind, desc, severity);
    }
  }

  // Whatever orders the maps were iterated in when the parser was built, the
  // verdict is the same, if no substring of a group is a prefix of another.
  lemma VerdictDeterministic(tree: map<string, Group>, one: map<string, seq<string>>, two: map<string, seq<string>>,
                             engine: Engine, renderers: Renderers, process: string, text: string)
    requires Usable(tree, one) && Usable(tree, two)
    requires forall g | g in tree :: PrefixFree(Owners(tree[g]).Keys)
    ensures Verdict(tree, one, engine, renderers, process, text) == Verdict(tree, two, engine, renderers, process, text)
  {
    forall g | g in tree && (g == process || g == STAR)
      ensures AttemptIn(tree, one, engine, renderers, g, process, text) ==
              AttemptIn(tree, two, engine, renderers, g, process, text)
    {
      OwnersPaired(tree[g]);
      MatchDeterministic(Owners(tree[g]), Regexps(tree[g]), one[g], two[g], engine, text);
    }
  }

  // --- the parser object ---

  function GroupView(g: map<string, EventParser>): Group
    reads g.Values
  {
    map n | n in g :: Spec(g[n].Substring, g[n].Re, g[n].Handler)
  }

  // The matcher maps hold exactly the group g.
  ghost predicate Holds(g: Group, substrings: map<string, string>, regexps: map<string, string>) {
    && regexps.Keys == g.Keys
    && (forall n | n in g :: regexps[n] == g[n].re && g[n].substring in substrings && substrings[g[n].substring] == n)
    && (forall s | s in substrings :: substrings[s] in g && g[substrings[s]].substring == s)
  }

  lemma HoldsMore(g: Group, substrings: map<string, string>, regexps: map<string, string>, n: string, s: Spec)
    requires Holds(g, substrings, regexps) && n !in g && s.substring !in substrings
    ensures Holds(g[n := s], substrings[s.substring := n], regexps[n := s.re])
  {}

  lemma HoldsAll(g: Group, substrings: map<string, string>, regexps: map<string, string>)
    requires Holds(g, substrings, regexps)
    ensures Distinct(g) && substrings == Owners(g) && regexps == Regexps(g)
  {
    OwnersPaired(g);
  }

  // All of the group but the events still to do.
  ghost predicate PartOf(part: Group, g: Group, todo: set<string>) {
    part.Keys == g.Keys - todo && forall n | n in part :: part[n] == g[n]
  }

  lemma PartMore(part: Group, g: Group, todo: set<string>, n: string, compiles: string -> bool)
    requires PartOf(part, g, todo) && n in g && n in todo && AllCompile(part, compiles) && compiles(g[n].re)
    ensures PartOf(part[n := g[n]], g, todo - {n}) && AllCompile(part[n := g[n]], compiles)
  {}

  // A substring met a second time, or a regexp that does not compile, makes the
  // whole group bad.
  lemma BadMember(g: Group, part: Group, todo: set<string>, substrings: map<string, string>,
                  regexps: map<string, string>, n: string, compiles: string -> bool)
    requires Holds(part, substrings, regexps) && PartOf(part, g, todo) && n in g && n in todo
    requires g[n].substring in substrings || !compiles(g[n].re)
    ensures !Addable(g, compiles)
  {
    if g[n].substring in substrings {
      var m := substrings[g[n].substring];
      assert g[m].substring == g[n].substring && m != n;
    }
  }

  lemma WholeGroup(g: Group, part: Group, substrings: map<string, string>, regexps: map<string, string>)
    requires PartOf(part, g, {}) && Holds(part, substrings, regexps)
    ensures part == g && Distinct(g)
  {
    HoldsAll(part, substrings, regexps);
    assert part == g;
  }

  // What MustAdd demands of a group.
  predicate Addable(g: Group, compiles: string -> bool) {
    Distinct(g) && AllCompile(g, compiles)
  }

  predicate AllCompile(g: Group, compiles: string -> bool) {
    forall n | n in g :: compiles(g[n].re)
  }

  // One call of MustAdd in the loop over a group.
  method AddParser(matcher: MultiRegexpMatcher, ghost g: Group, name: string, p: Spec) returns (done: bool)
    requires matcher.Valid() && Holds(g, matcher.substrings, matcher.regexps) && name !in g
    modifies matcher`substrings, matcher`regexps
    ensures done <==> p.substring !in old(matcher.substrings) && matcher.compiles(p.re)
    ensures done ==> matcher.Valid() && Holds(g[name := p], matcher.substrings, matcher.regexps)
  {
    if p.substring !in matcher.substrings {
      HoldsMore(g, matcher.substrings, matcher.regexps, name, p);
    }
    var outcome := matcher.MustAdd(name, p.substring, p.re);
    done := outcome.AddDone?;
  }

  // The call of matcher.Build after that loop.
  method FinishGroup(matcher: MultiRegexpMatcher, ghost g: Group)
    requires matcher.Valid() && Holds(g, matcher.substrings, matcher.regexps)
    modifies matcher`pattern, matcher`order
    ensures MatcherFor(matcher, g, matcher.engine)
  {
    HoldsAll(g, matcher.substrings, matcher.regexps);
    matcher.Build();
  }

  // The loop over a group.
  method AddGroup(matcher: MultiRegexpMatcher, group: Group) returns (ok: bool)
    requires matcher.Valid() && matcher.substrings == map[] && matcher.regexps == map[]
    modifies matcher`substrings, matcher`regexps
    ensures ok <==> Addable(group, matcher.compiles)
    ensures ok ==> matcher.Valid() && Holds(group, matcher.substrings, matcher.regexps)
  {
    ghost var part: Group := map[];
    var todo := group.Keys;
    while todo != {}
      invariant todo <= group.Keys && PartOf(part, group, todo)
      invariant matcher.Valid() && Holds(part, matcher.substrings, matcher.regexps)
      invariant AllCompile(part, matcher.compiles)
      decreases |todo|
    {
      var name :| name in todo;
      if group[name].substring in matcher.substrings || !matcher.compiles(group[name].re) {
        BadMember(group, part, todo, matcher.substrings, matcher.regexps, name, matcher.compiles);
      }
      var done := AddParser(matcher, part, name, group[name]);
      if !done { return false; }
      PartMore(part, group, todo, name, matcher.compiles);
      todo := todo - {name};
      part := part[name := group[name]];
    }
    WholeGroup(group, part, matcher.substrings, matcher.regexps);
    ok := true;
  }

  // Parser.Build for one group; ok is false where the process would end itself.
  method BuildGroup(group: Group, engine: Engine, compiles: string -> bool)
    returns (ok: bool, matcher: MultiRegexpMatcher)
    ensures fresh(matcher)
    ensures ok <==> Addable(group, compiles)
    ensures ok ==> MatcherFor(matcher, group, engine)
  {
    matcher := new MultiRegexpMatcher(engine, compiles);
    ok := AddGroup(matcher, group);
    if ok { FinishGroup(matcher, group); }
  }

  ghost predicate MatcherFor(m: MultiRegexpMatcher, g: Group, engine: Engine)
    reads m
  {
    m.Built() && m.engine == engine && Distinct(g) && m.substrings == Owners(g) && m.regexps == Regexps(g)
  }

  // Parser.Build for all groups, given as values.
  method BuildGroups(view: map<string, Group>, engine: Engine, compiles: string -> bool)
    returns (ok: bool, matchers: map<string, MultiRegexpMatcher>)
    ensures ok <==> forall g | g in view :: Addable(view[g], compiles)
    ensures matchers.Keys <= view.Keys
    ensures ok ==> matchers.Keys == view.Keys && forall g | g in view :: MatcherFor(matchers[g], view[g], engine)
  {
    matchers := map[];
    var todo := view.Keys;
    while todo != {}
      invariant todo <= view.Keys && matchers.Keys == view.Keys - todo
      invariant forall g | g in matchers :: fresh(matchers[g]) && MatcherFor(matchers[g], view[g], engine)
      invariant forall g | g in matchers :: Addable(view[g], compiles)
      decreases |todo|
    {
      var name :| name in todo;
      todo := todo - {name};
      var done, matcher := BuildGroup(view[name], engine, compiles);
      if !done { return false, matchers; }
      matchers := matchers[name := matcher];
    }
    ok := true;
  }

  method BlankSamples(parsers: set<EventParser>)
    modifies parsers
    ensures forall p | p in parsers ::
              p.Sample == "" && p.Substring == old(p.Substring) && p.Re == old(p.Re) && p.Handler == old(p.Handler)
  {
    var todo := parsers;
    while todo != {}
      invariant todo <= parsers
      invariant forall p | p in parsers - todo :: p.Sample == ""
      invariant forall p | p in parsers ::
                  p.Substring == old(p.Substring) && p.Re == old(p.Re) && p.Handler == old(p.Handler)
      decreases |todo|
    {
      var p :| p in todo;
      todo := todo - {p};
      p.Sample := "";
    }
  }

  class Parser {
    const tree: map<string, map<string, EventParser>>
    const engine: Engine
    const compiles: string -> bool
    const renderers: Renderers
    var matchers: map<string, MultiRegexpMatcher>

    constructor (tree: map<string, map<string, EventParser>>, engine: Engine, compiles: string -> bool,
                 renderers: Renderers)
      ensures this.tree == tree && this.engine == engine && this.compiles == compiles && this.renderers == renderers
      ensures matchers == map[] && Valid()
    {
      this.tree, this.engine, this.compiles, this.renderers := tree, engine, compiles, renderers;
      matchers := map[];
    }

    // Only groups of the tree have matchers.
    ghost predicate Valid()
      reads this
    {
      matchers.Keys <= tree.Keys
    }

    ghost const parsers: set<EventParser> := set g, n | g in tree && n in tree[g] :: tree[g][n]

    ghost function TreeView(): map<string, Group>
      reads parsers
    {
      map g | g in tree :: GroupView(tree[g])
    }

    ghost function Orders(): map<string, seq<string>>
      reads this, matchers.Values
    {
      map g | g in matchers :: matchers[g].order
    }

    ghost predicate Built()
      reads this, matchers.Values, parsers
    {
      matchers.Keys == tree.Keys
      && forall g | g in tree :: MatcherFor(matchers[g], TreeView()[g], engine)
    }

    lemma BuiltUsable()
      requires Built()
      ensures Usable(TreeView(), Orders())
    {}

    // TreeView depends on the parsers only through their fields.
    lemma ViewFrom(view: map<string, Group>)
      requires tree.Keys == view.Keys
      requires forall g, n | g in tree && n in tree[g] ::
                 n in view[g] && view[g][n] == Spec(tree[g][n].Substring, tree[g][n].Re, tree[g][n].Handler)
      requires forall g | g in tree :: view[g].Keys == tree[g].Keys
      ensures TreeView() == view
    {
      forall g | g in tree ensures GroupView(tree[g]) == view[g] {}
    }

    // Completes exactly when the substrings in each group are pairwise distinct and
    // all regexps compile.
    // Building again replaces every matcher.
    method Build() returns (ok: bool)
      requires Valid()
      modifies this`matchers
      ensures Valid()
      ensures ok <==> forall g | g in tree :: Addable(TreeView()[g], compiles)
      ensures ok ==> Built()
      ensures TreeView() == old(TreeView())
    {
      var view := map g | g in tree :: GroupView(tree[g]);
      ok, matchers := BuildGroups(view, engine, compiles);
      ViewFrom(view);
    }

    // Frees the samples; nothing that Parse looks at changes.
    method DeleteSamples()
      modifies parsers
      ensures TreeView() == old(TreeView()) && (old(Built()) ==> Built())
      ensures forall g | g in matchers :: matchers[g].order == old(matchers[g].order)
      ensures forall p | p in parsers :: p.Sample == ""
    {
      ghost var before := TreeView();
      BlankSamples(set g, n | g in tree && n in tree[g] :: tree[g][n]);
      ViewFrom(before);
    }

    // The parser as values.
    ghost predicate Is(view: map<string, Group>, orders: map<string, seq<string>>)
      reads this, matchers.Values, parsers
    {
      Built() && view == TreeView() && orders == Orders()
    }

    // What matcher and event parser of a group do with a line, without the heap.
    ghost function InGroup(view: map<string, Group>, orders: map<string, seq<string>>,
                           group: string, process: string, text: string): Option<Outcome>
      requires Usable(view, orders)
    {
      AttemptIn(view, orders, engine, renderers, group, process, text)
    }

    // Matching the line in one group and finding the parser of the event, which
    // is always there.
    method MatchGroup(group: string, text: string,
                      ghost view: map<string, Group>, ghost orders: map<string, seq<string>>)
      returns (name: string, results: Option<seq<string>>, handler: Handler)
      requires Is(view, orders) && group in tree
      ensures Usable(view, orders) && group in view && Paired(Owners(view[group]), Regexps(view[group]))
      ensures (name, results) == MatchIn(Owners(view[group]), Regexps(view[group]), orders[group], engine, text)
      ensures results.Some? ==> name in view[group] && handler == view[group][name].handler
    {
      BuiltUsable();
      OwnersPaired(view[group]);
      MatchedIsMember(view[group], orders[group], engine, text);
      var matcher := matchers[group];
      assert MatcherFor(matcher, view[group], engine);
      name, results := matcher.Match(text);
      handler := NoHandler;
      if results.Some? { handler := tree[group][name].Handler; }
    }

    // Making the event and handing it to its handler.
    method MakeEvent(name: string, process: string, h: Handler, results: seq<string>)
      returns (r: Outcome, event: Event?)
      ensures r == Conclude(name, process, Handle(h, results, renderers))
      ensures if r.Parsed? then Carries(event, r) else event == null
    {
      var e := new Event(name, process);
      var handled := HandleEvent(h, results, renderers, e);
      r := Conclude(name, process, handled);
      event := if handled.Described? then e else null;
    }

    // Matching the line in one group and handling the event.
    method ParseIn(group: string, process: string, text: string,
                   ghost view: map<string, Group>, ghost orders: map<string, seq<string>>)
      returns (r: Option<Outcome>, event: Event?)
      requires Is(view, orders) && group in tree
      ensures Usable(view, orders) && r == InGroup(view, orders, group, process, text)
      ensures if r.Some? && r.value.Parsed? then Carries(event, r.value) else event == null
    {
      var name, results, handler := MatchGroup(group, text, view, orders);
      if results.None? { return None, null; }
      var s, e := MakeEvent(name, process, handler, results.value);
      r, event := Some(s), e;
    }

    method ParseStarGroup(process: string, text: string,
                          ghost view: map<string, Group>, ghost orders: map<string, seq<string>>)
      returns (r: Outcome, event: Event?)
      requires Is(view, orders)
      ensures Usable(view, orders)
      ensures var star := InGroup(view, orders, STAR, process, text);
        r == if star.Some? then star.value else Nothing
      ensures if r.Parsed? then Carries(event, r) else event == null
    {
      BuiltUsable();
      if STAR !in tree { return Nothing, null; }
      var s, e := ParseIn(STAR, process, text, view, orders);
      r := if s.Some? then s.value else Nothing;
      event := e;
    }

    method ParseOwnGroup(process: string, text: string,
                         ghost view: map<string, Group>, ghost orders: map<string, seq<string>>)
      returns (r: Option<Outcome>, event: Event?)
      requires Is(view, orders)
      ensures Is(view, orders) && Usable(view, orders)
      ensures r == InGroup(view, orders, process, process, text)
      ensures if r.Some? && r.value.Parsed? then Carries(event, r.value) else event == null
    {
      BuiltUsable();
      if process !in tree { return None, null; }
      r, event := ParseIn(process, process, text, view, orders);
    }

    // A result of the own group, a handler's error included, is final.
    method Parse(process: string, text: string, ghost view: map<string, Group>, ghost orders: map<string, seq<string>>)
      returns (r: Outcome, event: Event?)
      requires Is(view, orders)
      ensures Usable(view, orders)
      ensures r == Verdict(view, orders, engine, renderers, process, text)
      ensures if r.Parsed? then Carries(event, r) else event == null
    {
      var s, e := ParseOwnGroup(process, text, view, orders);
      if s.Some? { return s.value, e; }
      r, event := ParseStarGroup(process, text, view, orders);
    }
  }

  ghost predicate Carries(event: Event?, r: Outcome)
    reads event
  {
    event != null && r == Parsed(event.Type, event.Process, event.Desc, event.Severity)
  }
}
