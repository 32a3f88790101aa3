// The loss per crash: with one tailer per file and process, restarts that find
// an entry for the file in the state file resume once per crash.
module AppCrashes {
  import opened FileLogs
  import Store
  import opened Apptail
  import opened AppEntries
  import opened AppLoss

  // Tailer t is one of file p.
  predicate Of(s: System, t: nat, p: (string, string)) {
    t in s.tailers && (s.tailers[t].key, s.tailers[t].file) == p
  }

  function Crashes(acts: seq<Action>, j: nat): nat
    requires j <= |acts|
  {
    if j == 0 then 0 else Crashes(acts, j - 1) + if Dies(acts[j - 1]) then 1 else 0
  }

  predicate Spawns(a: Action, p: (string, string)) {
    a.Spawn? && (a.key, a.file) == p
  }

  // How many tailers of file p the process running at moment j has started.
  function Spawned(acts: seq<Action>, p: (string, string), j: nat): nat
    requires j <= |acts|
  {
    if j == 0 || Dies(acts[j - 1]) then 0
    else Spawned(acts, p, j - 1) + if Spawns(acts[j - 1], p) then 1 else 0
  }

  ghost predicate OnePerProcess(acts: seq<Action>, p: (string, string)) {
    forall j | 0 <= j <= |acts| :: Spawned(acts, p, j) <= 1
  }

  // The process loaded a state file with an entry for p in step l, and nobody
  // has deleted the container since.
  ghost predicate Restored(tr: seq<System>, acts: seq<Action>, p: (string, string), l: nat, j: nat)
    requires j <= |acts| && |tr| == |acts| + 1
  {
    l < j && Loads(tr, acts, l, p.0, p.1) && Undisturbed(tr, acts, l + 1, j, p.0)
  }

  // After a crash a tailer of p looks for its entry only when it is restored.
  ghost predicate AlwaysRestored(tr: seq<System>, acts: seq<Action>, p: (string, string))
    requires |tr| == |acts| + 1
  {
    forall j | 0 <= j < |acts| && acts[j].CheckEntry? && Of(tr[j], acts[j].t, p) && Crashes(acts, j) > 0 ::
      exists l: nat :: Restored(tr, acts, p, l, j)
  }

  // --- the first process ---

  predicate Past(pc: Pc) {
    pc.Ended? || InLoop(pc)
  }

  // Nothing to load, and nothing being loaded.
  predicate LoadsNothing(s: Store.State) {
    (!Store.Running(s) ==> !s.disk.Holds?) && (s.mux.Loading? ==> s.mux.source == map[])
  }

  // Before the first crash an entry for p was made by a tailer of p.
  ghost predicate FreshInv(s: System, p: (string, string)) {
    && LoadsNothing(s.store)
    && (HasEntryFor(s, p.0, p.1) ==> exists t :: Of(s, t, p) && Past(s.tailers[t].pc))
  }

  lemma LoadsNothingStep(s: Store.State, a: Store.Action)
    requires Store.Inv(s) && Store.Can(s, a) && LoadsNothing(s) && !a.Crash?
    ensures LoadsNothing(Store.Do(s, a))
  {}

  lemma BoxMadeBy(s: Store.State, a: Store.Action, key: string, file: string)
    requires Store.Inv(s) && Store.Can(s, a) && LoadsNothing(s)
    requires key in s.cache ==> file !in Store.Kids(s, key)
    requires key in Store.Do(s, a).cache && file in Store.Kids(Store.Do(s, a), key)
    ensures a.InitChild? && a.key == key && a.file == file
  {}

  lemma PastStays(s: System, a: Action, t: nat)
    requires Can(s, a) && !Dies(a) && t in s.tailers && Past(s.tailers[t].pc)
    ensures t in Do(s, a).tailers && Past(Do(s, a).tailers[t].pc)
    ensures Do(s, a).tailers[t].key == s.tailers[t].key && Do(s, a).tailers[t].file == s.tailers[t].file
  {}

  lemma FreshStep(s: System, a: Action, p: (string, string))
    requires Store.Inv(s.store) && Can(s, a) && FreshInv(s, p) && !Dies(a)
    ensures FreshInv(Do(s, a), p)
  {
    if StoreAct(s, a).Some? { LoadsNothingStep(s.store, StoreAct(s, a).value); }
    if HasEntryFor(s, p.0, p.1) {
      var t :| Of(s, t, p) && Past(s.tailers[t].pc);
      PastStays(s, a, t);
      assert Of(Do(s, a), t, p);
    } else if HasEntryFor(Do(s, a), p.0, p.1) {
      BoxMadeBy(s.store, StoreAct(s, a).value, p.0, p.1);
      assert Of(Do(s, a), a.t, p) && Past(Do(s, a).tailers[a.t].pc);
    }
  }

  // --- all processes ---

  // Where a tailer of p can be, after c crashes and with n resumptions so far.
  predicate PcRule(pc: Pc, c: nat, n: nat, skips: seq<Gap>) {
    if c == 0 then
      !pc.HasEntry? && !pc.At? && (pc.Starting? || pc.NoEntry? || pc.Limited? ==> skips == [])
    else
      !pc.NoEntry? && !pc.Limited? && !pc.Opened? && (pc.Starting? || pc.HasEntry? || pc.At? ==> n < c)
  }

  ghost predicate OneInv(s: System, p: (string, string), c: nat, spawned: nat, n: nat) {
    && p in s.logs && |s.logs[p].skips| <= 1 && n <= c
    && (spawned == 0 ==> if c == 0 then s.logs[p].skips == [] else n < c)
    && (forall t | Of(s, t, p) :: spawned > 0 && PcRule(s.tailers[t].pc, c, n, s.logs[p].skips))
    && (forall t, u | Of(s, t, p) && Of(s, u, p) :: t == u)
    && (c == 0 ==> FreshInv(s, p))
  }

  predicate ResumesNow(s: System, a: Action, p: (string, string)) {
    a.OpenAt? && Of(s, a.t, p)
  }

  // Which tailer of p a step leaves where.
  lemma TailerOrigin(s: System, a: Action, t: nat, p: (string, string))
    requires Can(s, a) && Of(Do(s, a), t, p)
    ensures !Dies(a) && if Spawns(a, p) && a.t == t then Do(s, a).tailers[t].pc == Starting else Of(s, t, p)
  {}

  lemma SkipsOnlyAtEnd(s: System, a: Action, p: (string, string))
    requires Can(s, a) && p in s.logs
    ensures p in LogsAfter(s, a)
    ensures LogsAfter(s, a)[p].skips == s.logs[p].skips
            || (a.OpenEnd? && Of(s, a.t, p) && |LogsAfter(s, a)[p].skips| == |s.logs[p].skips| + 1)
  {}

  lemma PcStep(s: System, a: Action, t: nat, p: (string, string), c: nat, spawned: nat, n: nat)
    requires Can(s, a) && OneInv(s, p, c, spawned, n) && Of(Do(s, a), t, p)
    requires Spawns(a, p) ==> spawned == 0
    requires a.CheckEntry? && Of(s, a.t, p) && c > 0 ==> HasEntryFor(s, p.0, p.1)
    ensures PcRule(Do(s, a).tailers[t].pc, c, n + if ResumesNow(s, a, p) then 1 else 0, LogsAfter(s, a)[p].skips)
  {
    TailerOrigin(s, a, t, p);
    SkipsOnlyAtEnd(s, a, p);
  }

  lemma OneStep(s: System, a: Action, p: (string, string), c: nat, spawned: nat, n: nat)
    requires Store.Inv(s.store) && Can(s, a) && OneInv(s, p, c, spawned, n) && !Dies(a)
    requires Spawns(a, p) ==> spawned == 0
    requires a.CheckEntry? && Of(s, a.t, p) && c > 0 ==> HasEntryFor(s, p.0, p.1)
    ensures OneInv(Do(s, a), p, c, spawned + (if Spawns(a, p) then 1 else 0),
                   n + (if ResumesNow(s, a, p) then 1 else 0))
  {
    var next := Do(s, a);
    SkipsOnlyAtEnd(s, a, p);
    if c == 0 { FreshStep(s, a, p); }
    forall t | Of(next, t, p)
      ensures PcRule(next.tailers[t].pc, c, n + (if ResumesNow(s, a, p) then 1 else 0), next.logs[p].skips)
    {
      PcStep(s, a, t, p, c, spawned, n);
    }
    forall t, u | Of(next, t, p) && Of(next, u, p) ensures t == u {
      TailerOrigin(s, a, t, p);
      TailerOrigin(s, a, u, p);
    }
  }

  lemma CrashStep(s: System, a: Action, p: (string, string), c: nat, spawned: nat, n: nat)
    requires Can(s, a) && OneInv(s, p, c, spawned, n) && Dies(a)
    ensures OneInv(Do(s, a), p, c + 1, 0, n)
  {}

  lemma OneInit(s: System, p: (string, string))
    requires Init(s) && p in s.logs
    ensures OneInv(s, p, 0, 0, 0)
  {}

  // A restored tailer has an entry to find.
  lemma RestoredHasEntry(tr: seq<System>, acts: seq<Action>, p: (string, string), j: nat)
    requires Run(tr, acts) && Init(tr[0]) && j < |acts| && AlwaysRestored(tr, acts, p)
    requires acts[j].CheckEntry? && Of(tr[j], acts[j].t, p) && Crashes(acts, j) > 0
    ensures HasEntryFor(tr[j], p.0, p.1)
  {
    var l: nat :| Restored(tr, acts, p, l, j);
    LoadedEntry(tr, acts, l, p.0, p.1);
    EntryStays(tr, acts, l + 1, j, p.0, p.1);
  }

  ghost predicate OneAt(tr: seq<System>, acts: seq<Action>, p: (string, string), j: nat)
    requires |tr| == |acts| + 1 && j < |tr|
  {
    OneInv(tr[j], p, Crashes(acts, j), Spawned(acts, p, j), Resumptions(tr, acts, p, j))
  }

  lemma OneNext(tr: seq<System>, acts: seq<Action>, p: (string, string), j: nat)
    requires Run(tr, acts) && Init(tr[0]) && j < |acts| && OneAt(tr, acts, p, j)
    requires Spawned(acts, p, j + 1) <= 1 && AlwaysRestored(tr, acts, p)
    ensures OneAt(tr, acts, p, j + 1)
  {
    var s, a, c := tr[j], acts[j], Crashes(acts, j);
    var spawned, n := Spawned(acts, p, j), Resumptions(tr, acts, p, j);
    assert StepAt(tr, acts, j);
    if Dies(a) {
      CrashStep(s, a, p, c, spawned, n);
    } else {
      if a.CheckEntry? && Of(s, a.t, p) && c > 0 { RestoredHasEntry(tr, acts, p, j); }
      MemoryGood(tr, acts, j);
      OneStep(s, a, p, c, spawned, n);
    }
  }

  lemma {:induction false} OneRun(tr: seq<System>, acts: seq<Action>, p: (string, string), j: nat)
    requires Run(tr, acts) && Init(tr[0]) && j < |tr| && p in tr[0].logs
    requires OnePerProcess(acts, p) && AlwaysRestored(tr, acts, p)
    ensures OneAt(tr, acts, p, j)
  {
    if j == 0 {
      OneInit(tr[0], p);
    } else {
      OneRun(tr, acts, p, j - 1);
      OneNext(tr, acts, p, j - 1);
    }
  }

  // --- starts that skip nothing ---

  // Every start without an entry finds the file, when it opens it, as long as it
  // was at stat, and within read_limit.
  predicate StartsWhole(tr: seq<System>, acts: seq<Action>, p: (string, string))
    requires |tr| == |acts| + 1
  {
    forall i | 0 <= i < |acts| && acts[i].OpenEnd? && Of(tr[i], acts[i].t, p) && p in tr[i].logs ::
      tr[i].tailers[acts[i].t].pc == Limited(Size(tr[i].logs[p]))
  }

  lemma WholeStart(s: System, a: Action, p: (string, string))
    requires Can(s, a) && a.OpenEnd? && Of(s, a.t, p)
    requires s.tailers[a.t].pc == Limited(Size(s.logs[p]))
    requires forall k | 0 <= k < |s.logs[p].lines| :: s.logs[p].lines[k] != ""
    ensures LogsAfter(s, a)[p].skips == s.logs[p].skips
  {
    BytesMonotone(s.logs[p].lines, 0, a.line);
  }

  lemma {:induction false} NoSkips(tr: seq<System>, acts: seq<Action>, p: (string, string), j: nat)
    requires Run(tr, acts) && Init(tr[0]) && j < |tr| && p in tr[0].logs && StartsWhole(tr, acts, p)
    ensures p in tr[j].logs && tr[j].logs[p].skips == []
  {
    if j > 0 {
      var s, a := tr[j - 1], acts[j - 1];
      assert StepAt(tr, acts, j - 1);
      NoSkips(tr, acts, p, j - 1);
      LossRun(tr, acts, j - 1);
      SkipsOnlyAtEnd(s, a, p);
      if a.OpenEnd? && Of(s, a.t, p) { WholeStart(s, a, p); }
    }
  }

  // --- the main results ---

  // Without a start that skips, at most ahead + 1 lines are lost per resumption,
  // with any number of tailers.
  lemma LossPerResumption(tr: seq<System>, acts: seq<Action>, p: (string, string), j: nat)
    requires Run(tr, acts) && Init(tr[0]) && j < |tr| && p in tr[0].logs && StartsWhole(tr, acts, p)
    ensures p in tr[j].logs
    ensures |MissingLines(tr[j].logs[p])| <= Resumptions(tr, acts, p, j) * (tr[0].ahead + 1)
  {
    NoSkips(tr, acts, p, j);
    BoundedLoss(tr, acts, p, j);
    assert MissingLines(tr[j].logs[p]) - SkippedLines(tr[j].logs[p]) == MissingLines(tr[j].logs[p]);
  }

  // With at most one tailer of the file per process, and an entry for it in the
  // state file at every restart, each crash opens at most one gap of at most
  // ahead + 1 consecutive lines; besides, only the very first start can skip.
  lemma LossPerCrash(tr: seq<System>, acts: seq<Action>, p: (string, string), j: nat)
    requires Run(tr, acts) && Init(tr[0]) && j < |tr| && p in tr[0].logs
    requires OnePerProcess(acts, p) && AlwaysRestored(tr, acts, p)
    ensures p in tr[j].logs && Resumptions(tr, acts, p, j) <= Crashes(acts, j)
    ensures |tr[j].logs[p].gaps| <= Crashes(acts, j) && |tr[j].logs[p].skips| <= 1
    ensures forall i | 0 <= i < |tr[j].logs[p].gaps| ::
              tr[j].logs[p].gaps[i].hi - tr[j].logs[p].gaps[i].lo <= tr[0].ahead + 1
    ensures |MissingLines(tr[j].logs[p]) - SkippedLines(tr[j].logs[p])| <= Crashes(acts, j) * (tr[0].ahead + 1)
    ensures StartsWhole(tr, acts, p) ==>
              |MissingLines(tr[j].logs[p])| <= Crashes(acts, j) * (tr[0].ahead + 1)
  {
    OneRun(tr, acts, p, j);
    BoundedLoss(tr, acts, p, j);
    Scale(Resumptions(tr, acts, p, j), Crashes(acts, j), tr[0].ahead + 1);
    if StartsWhole(tr, acts, p) { LossPerResumption(tr, acts, p, j); }
  }

  // --- repeats ---

  predicate Opening(pc: Pc) {
    pc.Starting? || pc.HasEntry? || pc.NoEntry? || pc.At? || pc.Limited?
  }

  // The tailer that the process has of p is past line k.
  ghost predicate PassedNow(s: System, p: (string, string), k: nat) {
    exists t :: Of(s, t, p) && k < s.tailers[t].pos
  }

  ghost predicate RepeatInv(s: System, p: (string, string), k: nat, c: nat, spawned: nat) {
    && p in s.logs
    && (forall t | Of(s, t, p) :: spawned > 0 && (Opening(s.tailers[t].pc) ==> s.tailers[t].pos == 0))
    && (forall t, u | Of(s, t, p) && Of(s, u, p) :: t == u)
    && multiset(s.logs[p].published)[k] <= c + if PassedNow(s, p, k) then 1 else 0
  }

  predicate PublishesLine(s: System, a: Action, p: (string, string), k: nat) {
    a.Publish? && Of(s, a.t, p) && s.tailers[a.t].pos == k
  }

  lemma PublishedOnce(s: System, a: Action, p: (string, string), k: nat)
    requires Can(s, a) && p in s.logs
    ensures p in LogsAfter(s, a)
    ensures multiset(LogsAfter(s, a)[p].published)[k] <=
            multiset(s.logs[p].published)[k] + if PublishesLine(s, a, p, k) then 1 else 0
  {}

  // Nobody goes back: positions are set once, from 0, and then grow.
  lemma PositionMoves(s: System, a: Action, t: nat)
    requires Guard(s, a) && t in s.tailers && !Dies(a)
    requires Opening(s.tailers[t].pc) ==> s.tailers[t].pos == 0
    ensures t in TailersAfter(s, a)
    ensures var x, y := s.tailers[t], TailersAfter(s, a)[t];
      && x.key == y.key && x.file == y.file && x.pos <= y.pos && (Opening(y.pc) ==> y.pos == 0)
      && (a == Publish(t) ==> x.pos < y.pos)
  {}

  lemma PositionStep(s: System, a: Action, t: nat, p: (string, string))
    requires Can(s, a) && Of(s, t, p) && !Dies(a)
    requires Opening(s.tailers[t].pc) ==> s.tailers[t].pos == 0
    ensures Of(Do(s, a), t, p) && s.tailers[t].pos <= Do(s, a).tailers[t].pos
    ensures Opening(Do(s, a).tailers[t].pc) ==> Do(s, a).tailers[t].pos == 0
    ensures a == Publish(t) ==> s.tailers[t].pos < Do(s, a).tailers[t].pos
  {
    PositionMoves(s, a, t);
  }

  lemma RepeatStep(s: System, a: Action, p: (string, string), k: nat, c: nat, spawned: nat)
    requires Can(s, a) && RepeatInv(s, p, k, c, spawned) && !Dies(a) && (Spawns(a, p) ==> spawned == 0)
    ensures RepeatInv(Do(s, a), p, k, c, spawned + if Spawns(a, p) then 1 else 0)
  {
    var next := Do(s, a);
    PublishedOnce(s, a, p, k);
    forall t | Of(next, t, p) ensures Opening(next.tailers[t].pc) ==> next.tailers[t].pos == 0 {
      TailerOrigin(s, a, t, p);
      if Of(s, t, p) { PositionStep(s, a, t, p); }
    }
    forall t, u | Of(next, t, p) && Of(next, u, p) ensures t == u {
      TailerOrigin(s, a, t, p);
      TailerOrigin(s, a, u, p);
    }
    if PassedNow(s, p, k) {
      var t :| Of(s, t, p) && k < s.tailers[t].pos;
      PositionStep(s, a, t, p);
      assert PassedNow(next, p, k);
    } else if PublishesLine(s, a, p, k) {
      PositionStep(s, a, a.t, p);
      assert PassedNow(next, p, k);
    }
  }

  lemma {:induction false} RepeatRun(tr: seq<System>, acts: seq<Action>, p: (string, string), k: nat, j: nat)
    requires Run(tr, acts) && Init(tr[0]) && j < |tr| && p in tr[0].logs && OnePerProcess(acts, p)
    ensures RepeatInv(tr[j], p, k, Crashes(acts, j), Spawned(acts, p, j))
  {
    if j > 0 {
      var s, a := tr[j - 1], acts[j - 1];
      assert StepAt(tr, acts, j - 1);
      RepeatRun(tr, acts, p, k, j - 1);
      assert Spawned(acts, p, j) <= 1;
      if !Dies(a) { RepeatStep(s, a, p, k, Crashes(acts, j - 1), Spawned(acts, p, j - 1)); }
    }
  }

  // With at most one tailer of the file per process, no line is published more
  // often than there were processes, whatever the state file held.
  lemma RepeatsPerCrash(tr: seq<System>, acts: seq<Action>, p: (string, string), k: nat, j: nat)
    requires Run(tr, acts) && Init(tr[0]) && j < |tr| && p in tr[0].logs && OnePerProcess(acts, p)
    ensures p in tr[j].logs && multiset(tr[j].logs[p].published)[k] <= Crashes(acts, j) + 1
  {
    RepeatRun(tr, acts, p, k, j);
  }
}
