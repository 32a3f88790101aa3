// Which log files $STACKATO_LOG_FILES names.
module LogFiles {
  import opened Strings
  import FileLogs

  datatype Named = Named(name: string, path: string)

  // Indexing past the end panics: an entry without "=" has no second part.
  datatype Parsed = Files(files: map<string, string>) | IndexOutOfRange

  function PrintPair(p: Named): string {
    p.name + "=" + p.path
  }

  function PrintAll(pairs: seq<Named>): (parts: seq<string>)
    ensures |parts| == |pairs| && forall i | 0 <= i < |pairs| :: parts[i] == PrintPair(pairs[i])
  {
    if pairs == [] then [] else [PrintPair(pairs[0])] + PrintAll(pairs[1..])
  }

  // The value of the variable that lists these pairs.
  function Printed(pairs: seq<Named>): string {
    Join(PrintAll(pairs), ":")
  }

  function Last7<T>(s: seq<T>): seq<T> {
    if |s| > 7 then s[|s| - 7..] else s
  }

  // A later pair wins over an earlier one of the same name.
  function LastWins(pairs: seq<Named>): map<string, string> {
    if pairs == [] then map[]
    else LastWins(pairs[..|pairs| - 1])[pairs[|pairs| - 1].name := pairs[|pairs| - 1].path]
  }

  // The pair that an entry with "=" stands for.
  function PairOf(entry: string): Named
    requires '=' in entry
  {
    Named(SplitN2(entry, '=')[0], SplitN2(entry, '=')[1])
  }

  predicate AllPairs(entries: seq<string>) {
    forall i | 0 <= i < |entries| :: '=' in entries[i]
  }

  function PairsOf(entries: seq<string>): (pairs: seq<Named>)
    requires AllPairs(entries)
    ensures |pairs| == |entries|
  {
    if entries == [] then []
    else PairsOf(entries[..|entries| - 1]) + [PairOf(entries[|entries| - 1])]
  }

  // The entries of the variable that count.
  function Entries(s: string): seq<string> {
    Last7(Split(s, ':'))
  }

  // One more entry of the list.
  lemma OneMoreEntry(entries: seq<string>, n: nat)
    requires n < |entries| && AllPairs(entries[..n]) && '=' in entries[n]
    ensures AllPairs(entries[..n + 1])
    ensures LastWins(PairsOf(entries[..n + 1])) ==
            LastWins(PairsOf(entries[..n]))[PairOf(entries[n]).name := PairOf(entries[n]).path]
  {
    var more := entries[..n + 1];
    assert more[..n] == entries[..n];
    forall i | 0 <= i < |more| ensures '=' in more[i] {
      if i < n { assert more[i] == entries[..n][i]; }
    }
    var pairs := PairsOf(entries[..n]);
    assert (pairs + [PairOf(entries[n])])[..n] == pairs;
  }

  // The loop of getLogFiles over the entries.
  method ReadEntries(entries: seq<string>) returns (r: Parsed)
    ensures r.Files? <==> AllPairs(entries)
    ensures r.Files? ==> r.files == LastWins(PairsOf(entries))
  {
    var files: map<string, string> := map[];
    for n := 0 to |entries|
      invariant AllPairs(entries[..n])
      invariant files == LastWins(PairsOf(entries[..n]))
    {
      var nameAndPath := SplitN2(entries[n], '=');
      if |nameAndPath| < 2 { return IndexOutOfRange; }
      files := files[nameAndPath[0] := nameAndPath[1]];
      OneMoreEntry(entries, n);
    }
    assert entries[..|entries|] == entries;
    r := Files(files);
  }

  method ParseLogFiles(s: string) returns (r: Parsed, truncated: bool)
    ensures truncated <==> |Split(s, ':')| > 7
    ensures r.Files? <==>
            forall i | 0 <= i < |Split(s, ':')| && |Split(s, ':')| - 7 <= i :: '=' in Split(s, ':')[i]
    ensures r.Files? <==> AllPairs(Entries(s))
    ensures r.Files? ==> r.files == LastWins(PairsOf(Entries(s)))
  {
    var parts := Split(s, ':');
    truncated := |parts| > 7;
    if truncated { parts := parts[|parts| - 7..]; }
    LastPairs(Split(s, ':'));
    r := ReadEntries(parts);
  }

  lemma LastPairs(parts: seq<string>)
    ensures AllPairs(Last7(parts)) <==> forall i | 0 <= i < |parts| && |parts| - 7 <= i :: '=' in parts[i]
  {
    var d := |parts| - |Last7(parts)|;
    assert forall i | 0 <= i < |Last7(parts)| :: Last7(parts)[i] == parts[i + d];
    forall i | 0 <= i < |parts| && |parts| - 7 <= i ensures parts[i] == Last7(parts)[i - d] {}
  }

  predicate Printable(p: Named) {
    ':' !in p.name && ':' !in p.path && '=' !in p.name
  }

  lemma PairRoundTrip(p: Named)
    requires Printable(p)
    ensures '=' in PrintPair(p) && ':' !in PrintPair(p) && PairOf(PrintPair(p)) == p
  {
    SplitN2At(p.name, '=', p.path);
    assert PrintPair(p) == p.name + ['='] + p.path;
    assert PrintPair(p)[|p.name|] == '=';
  }

  lemma SplitPrinted(pairs: seq<Named>)
    requires pairs != [] && forall i | 0 <= i < |pairs| :: Printable(pairs[i])
    ensures Split(Printed(pairs), ':') == PrintAll(pairs)
  {
    forall i | 0 <= i < |pairs| ensures ':' !in PrintAll(pairs)[i] { PairRoundTrip(pairs[i]); }
    SplitJoin(PrintAll(pairs), ':');
  }

  lemma PrintAllMore(pairs: seq<Named>, p: Named)
    ensures PrintAll(pairs + [p]) == PrintAll(pairs) + [PrintPair(p)]
  {
    assert forall i | 0 <= i < |pairs| :: (pairs + [p])[i] == pairs[i];
  }

  lemma PairsOfMore(entries: seq<string>, e: string)
    requires AllPairs(entries) && '=' in e
    ensures AllPairs(entries + [e]) && PairsOf(entries + [e]) == PairsOf(entries) + [PairOf(e)]
  {
    assert (entries + [e])[..|entries|] == entries;
  }

  lemma PairsPrintedMore(front: seq<Named>, p: Named)
    requires Printable(p) && AllPairs(PrintAll(front)) && PairsOf(PrintAll(front)) == front
    ensures AllPairs(PrintAll(front + [p])) && PairsOf(PrintAll(front + [p])) == front + [p]
  {
    PairRoundTrip(p);
    PrintAllMore(front, p);
    PairsOfMore(PrintAll(front), PrintPair(p));
  }

  lemma {:induction false} PairsPrinted(pairs: seq<Named>)
    requires forall i | 0 <= i < |pairs| :: Printable(pairs[i])
    ensures AllPairs(PrintAll(pairs)) && PairsOf(PrintAll(pairs)) == pairs
  {
    if pairs != [] {
      var front, p := pairs[..|pairs| - 1], pairs[|pairs| - 1];
      PairsPrinted(front);
      PairsPrintedMore(front, p);
      assert front + [p] == pairs;
    }
  }

  lemma Last7Printed(pairs: seq<Named>)
    ensures Last7(PrintAll(pairs)) == PrintAll(Last7(pairs))
  {}

  // One of the last seven pairs has the name.
  predicate Keeps(pairs: seq<Named>, name: string) {
    exists i | 0 <= i < |pairs| && |pairs| - 7 <= i :: pairs[i].name == name
  }

  // The last pair of that name, one of the last seven, has the path.
  predicate KeepsPath(pairs: seq<Named>, name: string, path: string) {
    exists i | 0 <= i < |pairs| && |pairs| - 7 <= i ::
      pairs[i] == Named(name, path) && forall j | i < j < |pairs| :: pairs[j].name != name
  }

  // What the map of the last seven pairs has.
  lemma KeptAt(pairs: seq<Named>, name: string)
    ensures name in LastWins(Last7(pairs)) <==> Keeps(pairs, name)
    ensures name in LastWins(Last7(pairs)) ==> KeepsPath(pairs, name, LastWins(Last7(pairs))[name])
  {
    var last := Last7(pairs);
    var d := |pairs| - |last|;
    assert forall i | 0 <= i < |last| :: last[i] == pairs[i + d];
    LastWinsAt(last, name);
    if Keeps(pairs, name) {
      var i :| 0 <= i < |pairs| && |pairs| - 7 <= i && pairs[i].name == name;
      assert last[i - d].name == name;
    }
    if name in LastWins(last) {
      var i :| 0 <= i < |last| && last[i] == Named(name, LastWins(last)[name])
        && forall j | i < j < |last| :: last[j].name != name;
      forall j | i + d < j < |pairs| ensures pairs[j].name != name { assert last[j - d] == pairs[j]; }
      assert pairs[i + d] == Named(name, LastWins(last)[name]);
    }
  }

  // What getLogFiles reads from a printed list of pairs: of the last seven of
  // them, and of those with one name the last.
  method ParsePrinted(pairs: seq<Named>) returns (r: Parsed, truncated: bool)
    requires pairs != [] && forall i | 0 <= i < |pairs| :: Printable(pairs[i])
    ensures r.Files? && (truncated <==> |pairs| > 7)
    ensures forall name :: name in r.files <==> Keeps(pairs, name)
    ensures forall name | name in r.files :: KeepsPath(pairs, name, r.files[name])
  {
    r, truncated := ParseLogFiles(Printed(pairs));
    SplitPrinted(pairs);
    Last7Printed(pairs);
    PairsPrinted(Last7(pairs));
    forall name ensures name in r.files <==> Keeps(pairs, name) { KeptAt(pairs, name); }
    forall name | name in r.files ensures KeepsPath(pairs, name, r.files[name]) { KeptAt(pairs, name); }
  }

  // What a name is mapped to: the path of its last occurrence.
  lemma {:induction false} LastWinsAt(pairs: seq<Named>, name: string)
    ensures name in LastWins(pairs) <==> exists i | 0 <= i < |pairs| :: pairs[i].name == name
    ensures name in LastWins(pairs) ==> exists i | 0 <= i < |pairs| ::
              pairs[i] == Named(name, LastWins(pairs)[name])
              && forall j | i < j < |pairs| :: pairs[j].name != name
  {
    if pairs != [] {
      var n := |pairs| - 1;
      var front := pairs[..n];
      LastWinsAt(front, name);
      if pairs[n].name == name {
        assert pairs[n] == Named(name, LastWins(pairs)[name]);
      } else if name in LastWins(front) {
        var i :| 0 <= i < n && front[i] == Named(name, LastWins(front)[name])
          && forall j | i < j < n :: front[j].name != name;
        assert pairs[i] == front[i];
        forall j | i < j < |pairs| ensures pairs[j].name != name {
          if j < n { assert pairs[j] == front[j]; }
        }
      }
    }
  }

  // A variable that is set but empty ends the process.
  lemma EmptyVariablePanics()
    ensures Entries("") == [""] && !AllPairs(Entries(""))
  {
    assert Split("", ':') == [""];
    assert Entries("")[0] == "";
  }

  datatype Limit = Limit(bytes: nat) | StatFailed

  // getReadLimit: the size found by stat, if the file name is not empty and stat
  // succeeds; warned when much of the file is going to be skipped.
  method GetReadLimit(filename: string, size: nat, statOk: bool, sizeLimit: nat) returns (r: Limit, warned: bool)
    requires sizeLimit > 0
    ensures filename == "" ==> r == Limit(sizeLimit) && !warned
    ensures filename != "" && !statOk ==> r == StatFailed && !warned
    ensures filename != "" && statOk && size <= sizeLimit ==> r == Limit(size) && !warned
    ensures filename != "" && statOk && size > sizeLimit ==> r == Limit(sizeLimit) && warned
    ensures filename != "" && statOk ==> r == Limit(FileLogs.ReadLimit(size, sizeLimit))
  {
    var limit := sizeLimit;
    warned := false;
    if |filename| != 0 {
      if !statOk { return StatFailed, false; }
      if size > sizeLimit { warned := true; } else { limit := size; }
    }
    r := Limit(limit);
  }
}
