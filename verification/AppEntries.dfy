// How long the tracker keeps an entry, and when tailFile finds a container
// without the entry it has seen there.
module AppEntries {
  import Store
  import StoreHeap
  import opened Apptail
  import AppLoss

  predicate HasEntryFor(s: System, key: string, file: string) {
    key in s.store.cache && file in Store.Kids(s.store, key)
  }

  predicate Dies(a: Action) {
    a.Die? || a.NilPanic?
  }

  // A clean-up or a removal deletes the container.
  predicate Deletes(s: System, a: Action, key: string) {
    a == Inner(Store.CleanDelete(key))
    || (a.RemoveKey? && a.call < |s.listener.calls| && s.listener.calls[a.call].key == key)
  }

  // A tailer of the file calls InitializeChildNode.
  predicate Enters(s: System, a: Action, key: string, file: string) {
    a.InitEntry? && a.t in s.tailers && s.tailers[a.t].key == key && s.tailers[a.t].file == file
  }

  ghost predicate Undisturbed(tr: seq<System>, acts: seq<Action>, i: nat, j: nat, key: string)
    requires j <= |acts| && |tr| == |acts| + 1
  {
    forall m | i <= m < j :: !Dies(acts[m]) && !Deletes(tr[m], acts[m], key)
  }

  ghost predicate Alive(acts: seq<Action>, i: nat, j: nat)
    requires j <= |acts|
  {
    forall m | i <= m < j :: !Dies(acts[m])
  }

  lemma MemoryGood(tr: seq<System>, acts: seq<Action>, i: nat)
    requires Run(tr, acts) && Init(tr[0]) && i < |tr|
    ensures Store.Inv(tr[i].store)
  {
    Store.InvInit(tr[0].store);
    StoreInvRun(tr, acts, i);
  }

  lemma CacheKeeps(s: Store.State, a: Store.Action, key: string)
    requires Store.Can(s, a) && key in s.cache && !a.Crash?
    requires a != Store.Delete(key) && a != Store.CleanDelete(key)
    ensures key in Store.Do(s, a).cache && Store.Do(s, a).cache[key] == s.cache[key]
  {}

  lemma KeyStep(s: System, a: Action, key: string)
    requires Can(s, a) && key in s.store.cache && !Dies(a) && !Deletes(s, a, key)
    ensures key in Do(s, a).store.cache && Do(s, a).store.cache[key] == s.store.cache[key]
  {
    if StoreAct(s, a).Some? { CacheKeeps(s.store, StoreAct(s, a).value, key); }
  }

  lemma EntryStep(s: System, a: Action, key: string, file: string)
    requires Store.Inv(s.store) && Can(s, a) && HasEntryFor(s, key, file) && !Dies(a) && !Deletes(s, a, key)
    ensures HasEntryFor(Do(s, a), key, file)
  {
    KeyStep(s, a, key);
    if StoreAct(s, a).Some? { StoreHeap.NodeKeptStep(s.store, StoreAct(s, a).value, s.store.cache[key]); }
  }

  // An entry stays until its container is deleted or the process ends.
  lemma {:induction false} EntryStays(tr: seq<System>, acts: seq<Action>, i: nat, j: nat, key: string, file: string)
    requires Run(tr, acts) && Init(tr[0]) && i <= j < |tr| && HasEntryFor(tr[i], key, file)
    requires Undisturbed(tr, acts, i, j, key)
    ensures HasEntryFor(tr[j], key, file)
  {
    if i < j {
      assert StepAt(tr, acts, j - 1);
      EntryStays(tr, acts, i, j - 1, key, file);
      MemoryGood(tr, acts, j - 1);
      EntryStep(tr[j - 1], acts[j - 1], key, file);
    }
  }

  // --- from the state file to a resumption ---

  lemma {:induction false} LoadingGood(tr: seq<System>, acts: seq<Action>, j: nat)
    requires Run(tr, acts) && Init(tr[0]) && j < |tr|
    ensures StoreHeap.LoadingOk(tr[j].store)
  {
    if j > 0 {
      assert StepAt(tr, acts, j - 1);
      LoadingGood(tr, acts, j - 1);
      MemoryGood(tr, acts, j - 1);
      var s, a := tr[j - 1], acts[j - 1];
      if StoreAct(s, a).Some? { StoreHeap.LoadingStep(s.store, StoreAct(s, a).value); }
    }
  }

  ghost predicate Loads(tr: seq<System>, acts: seq<Action>, l: nat, key: string, file: string) {
    l < |acts| && l < |tr| && acts[l] == Inner(Store.LoadEnd)
    && tr[l].store.disk.Holds? && key in tr[l].store.disk.image && file in tr[l].store.disk.image[key]
  }

  lemma LoadedEntry(tr: seq<System>, acts: seq<Action>, l: nat, key: string, file: string)
    requires Run(tr, acts) && Init(tr[0]) && Loads(tr, acts, l, key, file)
    ensures HasEntryFor(tr[l + 1], key, file)
  {
    assert StepAt(tr, acts, l);
    LoadingGood(tr, acts, l);
  }

  // If the state file has an entry for the file when it is loaded, then a tailer
  // of the file finds it, unless the container was deleted in between.
  lemma LoadedIsFound(tr: seq<System>, acts: seq<Action>, l: nat, j: nat, t: nat, key: string, file: string)
    requires Run(tr, acts) && Init(tr[0]) && l < j < |acts| && Loads(tr, acts, l, key, file)
    requires Undisturbed(tr, acts, l + 1, j, key)
    requires acts[j] == CheckEntry(t) && t in tr[j].tailers
    requires tr[j].tailers[t].key == key && tr[j].tailers[t].file == file
    ensures t in tr[j + 1].tailers && tr[j + 1].tailers[t].pc == HasEntry
  {
    assert StepAt(tr, acts, j);
    LoadedEntry(tr, acts, l, key, file);
    EntryStays(tr, acts, l + 1, j, key, file);
  }

  // --- the nil dereference ---

  lemma AbsentStep(s: System, a: Action, key: string)
    requires Can(s, a) && Store.Running(s.store) && key !in s.store.cache && !Dies(a) && a != TailCall(key)
    ensures Store.Running(Do(s, a).store) && key !in Do(s, a).store.cache
  {}

  lemma {:induction false} AbsentStays(tr: seq<System>, acts: seq<Action>, i: nat, j: nat, key: string)
    requires Run(tr, acts) && i <= j < |tr| && Store.Running(tr[i].store) && key !in tr[i].store.cache
    requires Alive(acts, i, j) && forall m | i <= m < j :: acts[m] != TailCall(key)
    ensures Store.Running(tr[j].store) && key !in tr[j].store.cache
  {
    if i < j {
      assert StepAt(tr, acts, j - 1);
      AbsentStays(tr, acts, i, j - 1, key);
      AbsentStep(tr[j - 1], acts[j - 1], key);
    }
  }

  // The container is there and the file is not.
  predicate Bare(s: System, key: string, file: string) {
    key in s.store.cache && file !in Store.Kids(s.store, key) && Store.Running(s.store)
  }

  // A node that stays in the cache gets a file only by InitChild for its key.
  lemma KidsOfKept(s: Store.State, a: Store.Action, key: string, file: string)
    requires Store.Inv(s) && Store.Can(s, a) && Store.Running(s) && key in s.cache && file !in Store.Kids(s, key)
    requires key in Store.Do(s, a).cache && Store.Do(s, a).cache[key] == s.cache[key]
    requires !(a.InitChild? && a.key == key && a.file == file)
    ensures file !in Store.Kids(Store.Do(s, a), key)
  {}

  lemma BareStep(s: System, a: Action, key: string, file: string)
    requires Store.Inv(s.store) && Can(s, a) && Bare(s, key, file)
    requires !Dies(a) && !Deletes(s, a, key) && !Enters(s, a, key, file)
    ensures Bare(Do(s, a), key, file)
  {
    KeyStep(s, a, key);
    AppLoss.RunningStays(s, a);
    if StoreAct(s, a).Some? { KidsOfKept(s.store, StoreAct(s, a).value, key, file); }
  }

  lemma {:induction false} BareStays(tr: seq<System>, acts: seq<Action>, i: nat, j: nat, key: string, file: string)
    requires Run(tr, acts) && Init(tr[0]) && i <= j < |tr| && Bare(tr[i], key, file)
    requires Undisturbed(tr, acts, i, j, key)
    requires forall m | i <= m < j :: !Enters(tr[m], acts[m], key, file)
    ensures Bare(tr[j], key, file)
  {
    if i < j {
      assert StepAt(tr, acts, j - 1);
      BareStays(tr, acts, i, j - 1, key, file);
      MemoryGood(tr, acts, j - 1);
      BareStep(tr[j - 1], acts[j - 1], key, file);
    }
  }

  // Between moments i and j the container was deleted (step m) and next
  // registered (step r), and since then neither deleted nor given the file.
  ghost predicate Replaced(tr: seq<System>, acts: seq<Action>, i: nat, m: nat, r: nat, j: nat,
                           key: string, file: string)
    requires |tr| == |acts| + 1
  {
    && i <= m < r < j <= |acts| && Deletes(tr[m], acts[m], key) && acts[r] == TailCall(key)
    && (forall q | m < q < r :: acts[q] != TailCall(key))
    && (forall q | r < q < j :: !Deletes(tr[q], acts[q], key) && !Enters(tr[q], acts[q], key, file))
  }

  ghost predicate ReplacedIn(tr: seq<System>, acts: seq<Action>, i: nat, j: nat, key: string, file: string)
    requires |tr| == |acts| + 1
  {
    exists m: nat, r: nat :: Replaced(tr, acts, i, m, r, j, key, file)
  }

  lemma DeletedIsGone(s: System, a: Action, key: string)
    requires Can(s, a) && Deletes(s, a, key)
    ensures key !in Do(s, a).store.cache && Store.Running(Do(s, a).store)
  {}

  lemma RegisteredIsBare(s: System, key: string, file: string)
    requires Store.Inv(s.store) && Can(s, TailCall(key)) && key !in s.store.cache
    ensures Bare(Do(s, TailCall(key)), key, file)
  {}

  lemma ReplacedIsBare(tr: seq<System>, acts: seq<Action>, i: nat, m: nat, r: nat, j: nat, key: string, file: string)
    requires Run(tr, acts) && Init(tr[0]) && j < |tr| && Replaced(tr, acts, i, m, r, j, key, file)
    requires Alive(acts, i, j)
    ensures Bare(tr[j], key, file)
  {
    assert StepAt(tr, acts, m) && StepAt(tr, acts, r);
    DeletedIsGone(tr[m], acts[m], key);
    AbsentStays(tr, acts, m + 1, r, key);
    MemoryGood(tr, acts, r);
    RegisteredIsBare(tr[r], key, file);
    BareStays(tr, acts, r + 1, j, key, file);
  }

  lemma {:induction false} GoneWasDeleted(tr: seq<System>, acts: seq<Action>, i: nat, r: nat, key: string)
    returns (m: nat)
    requires Run(tr, acts) && i < r < |tr| && Alive(acts, i, r)
    requires key in tr[i].store.cache && key !in tr[r].store.cache
    ensures i <= m < r && Deletes(tr[m], acts[m], key)
    ensures forall q | m < q < r :: acts[q] != TailCall(key)
  {
    assert StepAt(tr, acts, r - 1);
    if key in tr[r - 1].store.cache {
      m := r - 1;
    } else {
      m := GoneWasDeleted(tr, acts, i, r - 1, key);
    }
  }

  lemma {:induction false} BareWasReplaced(tr: seq<System>, acts: seq<Action>, i: nat, j: nat,
                                           key: string, file: string)
    returns (m: nat, r: nat)
    requires Run(tr, acts) && Init(tr[0]) && i < j < |tr| && Alive(acts, i, j) && Store.Running(tr[i].store)
    requires HasEntryFor(tr[i], key, file) && Bare(tr[j], key, file)
    ensures Replaced(tr, acts, i, m, r, j, key, file)
  {
    var s, a := tr[j - 1], acts[j - 1];
    assert StepAt(tr, acts, j - 1);
    MemoryGood(tr, acts, j - 1);
    StaysRunning(tr, acts, i, j - 1);
    if Deletes(s, a, key) { DeletedIsGone(s, a, key); }
    if key !in s.store.cache {
      r := j - 1;
      m := GoneWasDeleted(tr, acts, i, j - 1, key);
    } else if file in Store.Kids(s.store, key) {
      EntryStep(s, a, key, file);
    } else {
      if Enters(s, a, key, file) { EnteredIsThere(s, a, key, file); }
      m, r := BareWasReplaced(tr, acts, i, j - 1, key, file);
    }
  }

  lemma EnteredIsThere(s: System, a: Action, key: string, file: string)
    requires Store.Inv(s.store) && Can(s, a) && Enters(s, a, key, file) && key in s.store.cache
    ensures HasEntryFor(Do(s, a), key, file)
  {}

  lemma {:induction false} StaysRunning(tr: seq<System>, acts: seq<Action>, i: nat, j: nat)
    requires Run(tr, acts) && i <= j < |tr| && Alive(acts, i, j) && Store.Running(tr[i].store)
    ensures Store.Running(tr[j].store)
  {
    if i < j {
      assert StepAt(tr, acts, j - 1);
      StaysRunning(tr, acts, i, j - 1);
      AppLoss.RunningStays(tr[j - 1], acts[j - 1]);
    }
  }

  lemma {:induction false} TailerStays(tr: seq<System>, acts: seq<Action>, i: nat, j: nat, t: nat)
    requires Run(tr, acts) && i <= j < |tr| && Alive(acts, i, j) && t in tr[i].tailers
    ensures t in tr[j].tailers
    ensures tr[j].tailers[t].key == tr[i].tailers[t].key && tr[j].tailers[t].file == tr[i].tailers[t].file
  {
    if i < j {
      assert StepAt(tr, acts, j - 1);
      TailerStays(tr, acts, i, j - 1, t);
    }
  }

  // Bare exactly when replaced, for an entry that was there at moment i.
  lemma BareIffReplaced(tr: seq<System>, acts: seq<Action>, i: nat, j: nat, key: string, file: string)
    requires Run(tr, acts) && Init(tr[0]) && i <= j < |tr| && Alive(acts, i, j) && Store.Running(tr[i].store)
    requires HasEntryFor(tr[i], key, file)
    ensures Bare(tr[j], key, file) <==> ReplacedIn(tr, acts, i, j, key, file)
  {
    if i < j && Bare(tr[j], key, file) {
      var m, r := BareWasReplaced(tr, acts, i, j, key, file);
    }
    if ReplacedIn(tr, acts, i, j, key, file) {
      var m: nat, r: nat :| Replaced(tr, acts, i, m, r, j, key, file);
      ReplacedIsBare(tr, acts, i, m, r, j, key, file);
    }
  }

  lemma FoundEntry(s: System, t: nat)
    requires Can(s, CheckEntry(t)) && Do(s, CheckEntry(t)).tailers[t].pc == HasEntry
    ensures HasEntryFor(Do(s, CheckEntry(t)), s.tailers[t].key, s.tailers[t].file)
    ensures Store.Running(Do(s, CheckEntry(t)).store)
  {}

  lemma PanicIfBare(s: System, t: nat)
    requires t in s.tailers && s.tailers[t].pc == HasEntry && s.store.mux.Free?
    requires (s.tailers[t].key, s.tailers[t].file) in s.logs
    ensures Can(s, NilPanic(t)) <==> Bare(s, s.tailers[t].key, s.tailers[t].file)
  {}

  // A tailer found an entry in step i and, at moment j, is going to read it.  It
  // dereferences nil exactly when since step i the container was deleted and
  // registered again, and nobody has entered the file since.
  lemma NilPanicExactly(tr: seq<System>, acts: seq<Action>, i: nat, j: nat, t: nat)
    requires Run(tr, acts) && Init(tr[0]) && i < j < |tr| && acts[i] == CheckEntry(t) && Alive(acts, i, j)
    requires t in tr[i + 1].tailers && tr[i + 1].tailers[t].pc == HasEntry
    requires t in tr[j].tailers && tr[j].tailers[t].pc == HasEntry && tr[j].store.mux.Free?
    ensures Can(tr[j], NilPanic(t)) <==>
            ReplacedIn(tr, acts, i + 1, j, tr[j].tailers[t].key, tr[j].tailers[t].file)
  {
    assert StepAt(tr, acts, i);
    FoundEntry(tr[i], t);
    TailerStays(tr, acts, i + 1, j, t);
    AppLoss.LossRun(tr, acts, j);
    assert AppLoss.TailerOk(tr[j], t);
    PanicIfBare(tr[j], t);
    BareIffReplaced(tr, acts, i + 1, j, tr[j].tailers[t].key, tr[j].tailers[t].file);
  }
}
