// When a removed container is really gone: from the cache, from the images on
// their way to the state file, and from the state file.
module StoreRemoval {
  import opened Options
  import opened TrackerSpec
  import opened Store

  ghost predicate AbsentInMux(s: State, key: string) {
    match s.mux
    case Encoding(got) => forall p | p in got :: p.0 != key
    case Loading(img) => key !in img
    case _ => true
  }

  ghost predicate Absent(s: State, key: string) {
    && key !in s.cache && AbsentInMux(s, key)
    && (forall c | c in s.pending :: key !in s.pending[c])
    && (s.disk.Holds? ==> key !in s.disk.image)
  }

  lemma AbsentStep(s: State, a: Action, key: string)
    requires Inv(s) && Can(s, a) && Absent(s, key) && a != Register(key)
    ensures Absent(Do(s, a), key)
  {}

  // Removed stays removed: without a new RegisterInstance no step brings the
  // key back, not even a crash followed by LoadTailers.
  lemma {:induction false} RemovedStaysRemoved(tr: seq<State>, acts: seq<Action>, i: nat, j: nat, key: string)
    requires Run(tr, acts) && Init(tr[0]) && i <= j < |tr| && Absent(tr[i], key)
    requires forall m | i <= m < j :: acts[m] != Register(key)
    ensures Absent(tr[j], key)
  {
    if i < j {
      assert StepAt(tr, acts, j - 1);
      RemovedStaysRemoved(tr, acts, i, j - 1, key);
      InvRun(tr, acts, j - 1);
      AbsentStep(tr[j - 1], acts[j - 1], key);
    }
  }

  // --- how that state is reached ---

  // The image written last was taken when ticket t or a later one was next.
  ghost predicate WrittenSince(s: State, t: nat) {
    s.author.Some? && t <= s.author.value
  }

  // Images with ticket t or later do not mention the key.
  ghost predicate GoneSince(s: State, key: string, t: nat) {
    && Running(s) && t <= s.tickets && key !in s.cache && AbsentInMux(s, key)
    && (forall c | c in s.pending && t <= c :: key !in s.pending[c])
    && (WrittenSince(s, t) && s.disk.Holds? ==> key !in s.disk.image)
  }

  lemma GoneStep(s: State, a: Action, key: string, t: nat)
    requires Inv(s) && Can(s, a) && GoneSince(s, key, t) && a != Register(key) && !a.Crash?
    ensures GoneSince(Do(s, a), key, t)
  {}

  lemma GoneAtDelete(s: State, key: string)
    requires Inv(s) && Can(s, Delete(key))
    ensures GoneSince(Do(s, Delete(key)), key, s.tickets)
  {}

  ghost predicate RemovalRun(tr: seq<State>, acts: seq<Action>, i: nat, j: nat, key: string) {
    && Run(tr, acts) && Init(tr[0]) && i < j < |tr| && acts[i] == Delete(key)
    && forall m | i < m < j :: acts[m] != Register(key) && !acts[m].Crash?
  }

  lemma {:induction false} GoneRun(tr: seq<State>, acts: seq<Action>, i: nat, j: nat, key: string)
    requires RemovalRun(tr, acts, i, j, key)
    ensures GoneSince(tr[j], key, tr[i].tickets)
  {
    var s, a := tr[j - 1], acts[j - 1];
    assert StepAt(tr, acts, j - 1);
    InvRun(tr, acts, j - 1);
    if i + 1 == j {
      GoneAtDelete(s, key);
    } else {
      assert a != Register(key) && !a.Crash?;
      assert RemovalRun(tr, acts, i, j - 1, key);
      GoneRun(tr, acts, i, j - 1, key);
      GoneStep(s, a, key, tr[i].tickets);
    }
  }

  // Exactly when Remove(key), whose deletion is step i, has taken full effect at
  // moment j: no image taken before the deletion that has the key is still on
  // its way, nor was such a one the last to be written.
  lemma RemovalTakesEffect(tr: seq<State>, acts: seq<Action>, i: nat, j: nat, key: string)
    requires RemovalRun(tr, acts, i, j, key)
    ensures Absent(tr[j], key) <==>
            && (forall c | c in tr[j].pending && c < tr[i].tickets :: key !in tr[j].pending[c])
            && (!WrittenSince(tr[j], tr[i].tickets) && tr[j].disk.Holds? ==> key !in tr[j].disk.image)
  {
    GoneRun(tr, acts, i, j, key);
  }

  lemma PendingStep(s: State, a: Action, t: nat)
    requires Can(s, a) && t <= s.tickets && forall c | c in s.pending :: t <= c
    ensures t <= Do(s, a).tickets && forall c | c in Do(s, a).pending :: t <= c
  {}

  lemma {:induction false} PendingSince(tr: seq<State>, acts: seq<Action>, i: nat, j: nat)
    requires Run(tr, acts) && i <= j < |tr| && tr[i].pending == map[]
    ensures tr[i].tickets <= tr[j].tickets && forall c | c in tr[j].pending :: tr[i].tickets <= c
  {
    if i < j {
      assert StepAt(tr, acts, j - 1);
      PendingSince(tr, acts, i, j - 1);
      PendingStep(tr[j - 1], acts[j - 1], tr[i].tickets);
    }
  }

  // If no commit was under way at the deletion, then as soon as a commit begun
  // after it has been written (the one Remove makes, at the latest) the key is
  // gone, and it stays gone until it is registered again.
  lemma RemoveWithoutOverlap(tr: seq<State>, acts: seq<Action>, i: nat, j: nat, l: nat, key: string)
    requires RemovalRun(tr, acts, i, j, key) && j <= l < |tr|
    requires tr[i].pending == map[] && WrittenSince(tr[j], tr[i].tickets)
    requires forall m | j <= m < l :: acts[m] != Register(key)
    ensures Absent(tr[l], key)
  {
    PendingSince(tr, acts, i, j);
    RemovalTakesEffect(tr, acts, i, j, key);
    RemovedStaysRemoved(tr, acts, j, l, key);
  }

  // --- what an overlapping commit does ---

  // Two goroutines commit at the same time: the first image (with the key) is
  // taken, Remove deletes the key, its own commit is taken, written, and Remove
  // returns; then the first image is written over it.
  const LATE_COMMIT: seq<Action> := [EncodeBegin, EncodeEnd, Delete("k"), EncodeBegin, EncodeEnd,
                                    WriteBegin(1), WriteEnd, WriteBegin(0), WriteEnd,
                                    Crash, LoadBegin, LoadKey("k"), LoadEnd]

  lemma Grow(tr: seq<State>, acts: seq<Action>, a: Action)
    returns (tr': seq<State>, acts': seq<Action>)
    requires Run(tr, acts) && Can(tr[|acts|], a)
    ensures Run(tr', acts') && acts' == acts + [a]
    ensures tr'[0] == tr[0] && tr'[|acts'|] == Do(tr[|acts|], a)
  {
    tr', acts' := tr + [Do(tr[|acts|], a)], acts + [a];
    forall i | 0 <= i < |acts'| ensures StepAt(tr', acts', i) {
      if i < |acts| { assert StepAt(tr, acts, i); }
    }
  }

  const KEY_ONLY: Image := map["k" := map[]]

  // One container registered, nothing committed yet.
  const ONE_KEY := State([Node("k", map[])], [], map["k" := 0], Free, map[], None, Missing, None, 0, {})

  lemma RegisterOne() returns (tr: seq<State>, acts: seq<Action>)
    ensures Run(tr, acts) && Init(tr[0])
    ensures acts == [LoadBegin, LoadEnd, Register("k")] && tr[|acts|] == ONE_KEY
  {
    tr, acts := [State([], [], map[], Booting, map[], None, Missing, None, 0, {})], [];
    tr, acts := Grow(tr, acts, LoadBegin);
    tr, acts := Grow(tr, acts, LoadEnd);
    tr, acts := Grow(tr, acts, Register("k"));
  }

  lemma FirstCommit() returns (tr: seq<State>, acts: seq<Action>)
    ensures Run(tr, acts) && Init(tr[0])
    ensures acts == [LoadBegin, LoadEnd, Register("k")] + LATE_COMMIT[..2]
    ensures tr[|acts|] == ONE_KEY.(pending := map[0 := KEY_ONLY], tickets := 1, taken := {KEY_ONLY})
  {
    tr, acts := RegisterOne();
    tr, acts := Grow(tr, acts, EncodeBegin);
    assert tr[|acts|] == ONE_KEY.(mux := Encoding(map[]));
    assert Encoded(tr[|acts|], map[]) == KEY_ONLY;
    tr, acts := Grow(tr, acts, EncodeEnd);
  }

  lemma SecondCommit() returns (tr: seq<State>, acts: seq<Action>)
    ensures Run(tr, acts) && Init(tr[0])
    ensures acts == [LoadBegin, LoadEnd, Register("k")] + LATE_COMMIT[..5]
    ensures tr[|acts|].pending == map[0 := KEY_ONLY, 1 := map[]] && tr[|acts|].writer == None
  {
    tr, acts := FirstCommit();
    tr, acts := Grow(tr, acts, Delete("k"));
    tr, acts := Grow(tr, acts, EncodeBegin);
    assert Encoded(tr[|acts|], map[]) == map[];
    tr, acts := Grow(tr, acts, EncodeEnd);
  }

  // After a restart the removed container is back in the cache, although nobody
  // registered it again.
  lemma LateCommitRevives() returns (tr: seq<State>, acts: seq<Action>)
    ensures Run(tr, acts) && Init(tr[0]) && acts == [LoadBegin, LoadEnd, Register("k")] + LATE_COMMIT
    ensures "k" in tr[|acts|].cache && tr[|acts|].mux.Free?
  {
    tr, acts := SecondCommit();
    tr, acts := Grow(tr, acts, WriteBegin(1));
    tr, acts := Grow(tr, acts, WriteEnd);
    tr, acts := Grow(tr, acts, WriteBegin(0));
    tr, acts := Grow(tr, acts, WriteEnd);
    assert tr[|acts|].disk == Holds(KEY_ONLY);
    tr, acts := Grow(tr, acts, Crash);
    tr, acts := Grow(tr, acts, LoadBegin);
    tr, acts := Grow(tr, acts, LoadKey("k"));
    assert KEY_ONLY["k"].Keys == {};
    tr, acts := Grow(tr, acts, LoadEnd);
  }
}
