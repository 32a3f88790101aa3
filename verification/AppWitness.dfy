// Runs that show where the results of AppLoss are tight and where the code can
// panic.
module AppWitness {
  import opened Options
  import opened TrackerSpec
  import opened FileLogs
  import Store
  import opened Apptail
  import opened AppEntries
  import opened AppCrashes

  const P := ("k", "f")

  // A run with one tailer of the file per process, whose restarts find an entry;
  // how often it has crashed, and how many tailers the process has started.
  ghost predicate Orderly(tr: seq<System>, acts: seq<Action>, crashes: nat, spawned: nat) {
    && Run(tr, acts) && OnePerProcess(acts, P) && AlwaysRestored(tr, acts, P)
    && Crashes(acts, |acts|) == crashes && Spawned(acts, P, |acts|) == spawned
  }

  lemma {:induction false} CountsKept(acts: seq<Action>, a: Action, j: nat)
    requires j <= |acts|
    ensures Crashes(acts + [a], j) == Crashes(acts, j) && Spawned(acts + [a], P, j) == Spawned(acts, P, j)
  {
    if j > 0 {
      CountsKept(acts, a, j - 1);
      assert (acts + [a])[j - 1] == acts[j - 1];
    }
  }

  lemma RestoredKept(tr: seq<System>, acts: seq<Action>, tr': seq<System>, a: Action, l: nat, j: nat)
    requires |tr| == |acts| + 1 && |tr'| == |tr| + 1 && tr'[..|tr|] == tr
    requires j <= |acts| && Restored(tr, acts, P, l, j)
    ensures Restored(tr', acts + [a], P, l, j)
  {
    assert forall m | 0 <= m < |tr| :: tr'[m] == tr'[..|tr|][m];
  }

  // One more step, a second tailer excluded, keeps a run orderly; a tailer that
  // looks for its entry after a crash needs a restored one.
  lemma GrowOrderly(tr: seq<System>, acts: seq<Action>, a: Action, tr': seq<System>, c: nat, n: nat)
    requires Orderly(tr, acts, c, n) && Run(tr', acts + [a]) && tr'[..|tr|] == tr && (Spawns(a, P) ==> n == 0)
    requires a.CheckEntry? && c > 0 ==> exists l: nat :: Restored(tr, acts, P, l, |acts|)
    ensures Orderly(tr', acts + [a], c + (if Dies(a) then 1 else 0),
                    if Dies(a) then 0 else if Spawns(a, P) then 1 else n)
  {
    var acts' := acts + [a];
    CountsKept(acts, a, |acts|);
    forall j | 0 <= j <= |acts'| ensures Spawned(acts', P, j) <= 1 {
      if j <= |acts| { CountsKept(acts, a, j); }
    }
    forall j | 0 <= j < |acts'| && acts'[j].CheckEntry? && Of(tr'[j], acts'[j].t, P) && Crashes(acts', j) > 0
      ensures exists l: nat :: Restored(tr', acts', P, l, j)
    {
      CountsKept(acts, a, j);
      assert tr'[j] == tr'[..|tr|][j];
      var l: nat :| Restored(tr, acts, P, l, j);
      RestoredKept(tr, acts, tr', a, l, j);
    }
  }

  lemma Grow(tr: seq<System>, acts: seq<Action>, a: Action)
    returns (tr': seq<System>, acts': seq<Action>)
    requires Run(tr, acts) && Can(tr[|acts|], a)
    ensures Run(tr', acts') && acts' == acts + [a]
    ensures tr'[0] == tr[0] && tr'[|acts'|] == Do(tr[|acts|], a)
    ensures tr'[..|tr|] == tr && Crashes(acts', |acts'|) == Crashes(acts, |acts|) + if Dies(a) then 1 else 0
  {
    tr', acts' := tr + [Do(tr[|acts|], a)], acts + [a];
    forall i | 0 <= i < |acts'| ensures StepAt(tr', acts', i) {
      if i < |acts| { assert StepAt(tr, acts, i); }
    }
    CountsKept(acts, a, |acts|);
  }

  lemma GrowOne(tr: seq<System>, acts: seq<Action>, a: Action, c: nat, n: nat)
    returns (tr': seq<System>, acts': seq<Action>)
    requires Orderly(tr, acts, c, n) && Can(tr[|acts|], a) && (Spawns(a, P) ==> n == 0)
    requires a.CheckEntry? && c > 0 ==> exists l: nat :: Restored(tr, acts, P, l, |acts|)
    ensures acts' == acts + [a] && |tr'| == |tr| + 1 && tr'[..|tr|] == tr
    ensures Orderly(tr', acts', c + (if Dies(a) then 1 else 0),
                    if Dies(a) then 0 else if Spawns(a, P) then 1 else n)
    ensures tr'[0] == tr[0] && tr'[|acts'|] == Do(tr[|acts|], a)
  {
    tr', acts' := Grow(tr, acts, a);
    GrowOrderly(tr, acts, a, tr', c, n);
  }

  const NO_STORE := Store.State([], [], map[], Store.Booting, map[], None, Missing, None, 0, {})
  const NOBODY := Listener([], map[], [], [])

  function NewLog(lines: seq<string>): FileLog {
    FileLog(lines, [], 0, [], [], 0)
  }

  function Start(lines: seq<string>, ahead: nat): System {
    System(NO_STORE, map[("k", "f") := NewLog(lines)], map[], NOBODY, ahead, Size(NewLog(lines)) + 1)
  }

  // A tailer has opened the file and entered its box.
  const ONE_BOX := Store.State([Store.Node("k", map["f" := 0])], [Store.Box(0, "f", 0)], map["k" := 0],
                              Store.Free, map[], None, Missing, None, 0, {})

  function Tailing(lines: seq<string>, ahead: nat): System {
    Start(lines, ahead).(store := ONE_BOX, tailers := map[0 := Tailer("k", "f", 0, true, Idle)])
  }

  lemma ReachRegistered(lines: seq<string>, ahead: nat) returns (tr: seq<System>, acts: seq<Action>)
    ensures Orderly(tr, acts, 0, 1) && tr[0] == Start(lines, ahead)
    ensures tr[|acts|] == Start(lines, ahead).(
      store := NO_STORE.(nodes := [Store.Node("k", map[])], cache := map["k" := 0], mux := Store.Free),
      tailers := map[0 := Tailer("k", "f", 0, true, Starting)])
  {
    tr, acts := [Start(lines, ahead)], [];
    tr, acts := GrowOne(tr, acts, Inner(Store.LoadBegin), 0, 0);
    tr, acts := GrowOne(tr, acts, Inner(Store.LoadEnd), 0, 0);
    tr, acts := GrowOne(tr, acts, TailCall("k"), 0, 0);
    assert tr[|acts|].store == NO_STORE.(nodes := [Store.Node("k", map[])], cache := map["k" := 0], mux := Store.Free);
    tr, acts := GrowOne(tr, acts, Spawn(0, "k", "f"), 0, 0);
  }

  lemma ReachLimited(lines: seq<string>, ahead: nat) returns (tr: seq<System>, acts: seq<Action>)
    ensures Orderly(tr, acts, 0, 1) && tr[0] == Start(lines, ahead)
    ensures tr[|acts|] == Start(lines, ahead).(
      store := NO_STORE.(nodes := [Store.Node("k", map[])], cache := map["k" := 0], mux := Store.Free),
      tailers := map[0 := Tailer("k", "f", 0, true, Limited(Size(NewLog(lines))))])
  {
    tr, acts := ReachRegistered(lines, ahead);
    tr, acts := GrowOne(tr, acts, CheckEntry(0), 0, 1);
    tr, acts := GrowOne(tr, acts, Stat(0), 0, 1);
  }

  lemma ReachOpened(lines: seq<string>, ahead: nat) returns (tr: seq<System>, acts: seq<Action>)
    requires forall k | 0 <= k < |lines| :: lines[k] != ""
    ensures Orderly(tr, acts, 0, 1) && tr[0] == Start(lines, ahead)
    ensures tr[|acts|] == Start(lines, ahead).(
      store := NO_STORE.(nodes := [Store.Node("k", map[])], cache := map["k" := 0], mux := Store.Free),
      tailers := map[0 := Tailer("k", "f", 0, true, Opened(true))])
  {
    tr, acts := ReachLimited(lines, ahead);
    if |lines| > 0 { BytesMonotone(lines, 0, 1); }
    tr, acts := GrowOne(tr, acts, OpenEnd(0, 0), 0, 1);
  }

  lemma ReachTailing(lines: seq<string>, ahead: nat) returns (tr: seq<System>, acts: seq<Action>)
    requires forall k | 0 <= k < |lines| :: lines[k] != ""
    ensures Orderly(tr, acts, 0, 1) && tr[0] == Start(lines, ahead) && tr[|acts|] == Tailing(lines, ahead)
  {
    tr, acts := ReachOpened(lines, ahead);
    tr, acts := GrowOne(tr, acts, InitEntry(0), 0, 1);
  }

  // The first start on a file that is within read_limit but grows between stat
  // and open skips its first line.
  lemma GrowthIsSkipped()
    ensures exists tr: seq<System>, acts: seq<Action> :: (
      && Run(tr, acts) && Init(tr[0]) && ("k", "f") in tr[|acts|].logs
      && Size(tr[|acts|].logs[("k", "f")]) <= tr[|acts|].sizeLimit
      && tr[|acts|].logs[("k", "f")] == FileLog(["a", "b"], [], 1, [], [Gap(0, 1)], 0))
  {
    var tr, acts := ReachLimited(["a"], 0);
    assert Bytes(["a"], 1) == 1;
    tr, acts := Grow(tr, acts, Append("k", "f", "b"));
    var lines := ["a", "b"];
    assert ["a"] + ["b"] == lines;
    assert Bytes(lines, 0) == 0 && Bytes(lines, 1) == 1 && Bytes(lines, 2) == 2;
    tr, acts := Grow(tr, acts, OpenEnd(0, 1));
  }

  // --- the bound on the loss is reached ---

  function Box(offset: int): Store.State {
    ONE_BOX.(boxes := [Store.Box(0, "f", offset)])
  }

  function Saved(offset: int): Image {
    map["k" := map["f" := offset]]
  }

  function AtLine(lines: seq<string>, pc: Pc): System
    requires lines != []
  {
    Tailing(lines, |lines| - 1).(tailers := map[0 := Tailer("k", "f", 0, true, pc)])
  }

  lemma ReachReceived(lines: seq<string>) returns (tr: seq<System>, acts: seq<Action>)
    requires lines != [] && forall k | 0 <= k < |lines| :: lines[k] != ""
    ensures Orderly(tr, acts, 0, 1) && tr[0] == Start(lines, |lines| - 1) && tr[|acts|] == AtLine(lines, Received)
  {
    tr, acts := ReachTailing(lines, |lines| - 1);
    tr, acts := GrowOne(tr, acts, Receive(0), 0, 1);
  }

  lemma ReachTold(lines: seq<string>) returns (tr: seq<System>, acts: seq<Action>)
    requires lines != [] && forall k | 0 <= k < |lines| :: lines[k] != ""
    ensures Orderly(tr, acts, 0, 1) && tr[0] == Start(lines, |lines| - 1)
    ensures tr[|acts|] == AtLine(lines, Told(Bytes(lines, |lines|)))
  {
    tr, acts := ReachReceived(lines);
    tr, acts := GrowOne(tr, acts, Tell(0, |lines|), 0, 1);
  }

  // The tailer has received the first line, Tell has answered with the end of
  // the file, and Update has stored that; nothing is published yet.
  lemma ReachUpdated(lines: seq<string>) returns (tr: seq<System>, acts: seq<Action>)
    requires lines != [] && forall k | 0 <= k < |lines| :: lines[k] != ""
    ensures Orderly(tr, acts, 0, 1) && tr[0] == Start(lines, |lines| - 1)
    ensures tr[|acts|] == AtLine(lines, Updated).(store := Box(Bytes(lines, |lines|)))
  {
    tr, acts := ReachTold(lines);
    tr, acts := GrowOne(tr, acts, FindNode(0), 0, 1);
    assert tr[|acts|] == AtLine(lines, AtNode(Bytes(lines, |lines|), 0));
    tr, acts := GrowOne(tr, acts, FindChild(0), 0, 1);
    assert tr[|acts|] == AtLine(lines, AtChild(Bytes(lines, |lines|), 0));
    tr, acts := GrowOne(tr, acts, StoreOffset(0), 0, 1);
  }

  lemma ReachEncoded(lines: seq<string>) returns (tr: seq<System>, acts: seq<Action>)
    requires lines != [] && forall k | 0 <= k < |lines| :: lines[k] != ""
    ensures Orderly(tr, acts, 0, 1) && tr[0] == Start(lines, |lines| - 1)
    ensures tr[|acts|].logs == tr[0].logs && tr[|acts|].ahead == |lines| - 1
    ensures tr[|acts|].store ==
            Box(Bytes(lines, |lines|)).(mux := Store.Encoding(map[("k", "f") := Bytes(lines, |lines|)]))
  {
    tr, acts := ReachUpdated(lines);
    var off := Bytes(lines, |lines|);
    tr, acts := GrowOne(tr, acts, Inner(Store.EncodeBegin), 0, 1);
    assert tr[|acts|].store == Box(off).(mux := Store.Encoding(map[]));
    tr, acts := GrowOne(tr, acts, Inner(Store.EncodeBox("k", "f")), 0, 1);
  }

  lemma EncodedBox(s: Store.State, off: int)
    requires s.cache == map["k" := 0] && s.nodes == [Store.Node("k", map["f" := 0])]
    ensures Store.AllRead(s, map[("k", "f") := off])
    ensures Store.Encoded(s, map[("k", "f") := off]) == Saved(off)
  {
    assert Store.Kids(s, "k") == map["f" := 0];
    var got := map[("k", "f") := off];
    assert Store.AllRead(s, got);
    var img := Store.Encoded(s, got);
    assert img["k"] == map["f" := off];
  }

  lemma ReachImage(lines: seq<string>) returns (tr: seq<System>, acts: seq<Action>)
    requires lines != [] && forall k | 0 <= k < |lines| :: lines[k] != ""
    ensures Orderly(tr, acts, 0, 1) && tr[0] == Start(lines, |lines| - 1)
    ensures tr[|acts|].logs == tr[0].logs && tr[|acts|].ahead == |lines| - 1
    ensures tr[|acts|].store.pending == map[0 := Saved(Bytes(lines, |lines|))]
    ensures tr[|acts|].store.writer == None
  {
    tr, acts := ReachEncoded(lines);
    EncodedBox(tr[|acts|].store, Bytes(lines, |lines|));
    tr, acts := GrowOne(tr, acts, Inner(Store.EncodeEnd), 0, 1);
  }

  lemma ReachCrash(lines: seq<string>) returns (tr: seq<System>, acts: seq<Action>)
    requires lines != [] && forall k | 0 <= k < |lines| :: lines[k] != ""
    ensures Orderly(tr, acts, 1, 0) && tr[0] == Start(lines, |lines| - 1)
    ensures tr[|acts|].logs == tr[0].logs && tr[|acts|].ahead == |lines| - 1
    ensures tr[|acts|].store.disk == Holds(Saved(Bytes(lines, |lines|)))
    ensures tr[|acts|].store.cache == map[] && tr[|acts|].store.mux == Store.Booting
    ensures tr[|acts|].tailers == map[]
  {
    tr, acts := ReachImage(lines);
    tr, acts := GrowOne(tr, acts, Inner(Store.WriteBegin(0)), 0, 1);
    tr, acts := GrowOne(tr, acts, Inner(Store.WriteEnd), 0, 1);
    tr, acts := GrowOne(tr, acts, Die, 0, 1);
  }

  lemma ReachLoading(lines: seq<string>) returns (tr: seq<System>, acts: seq<Action>)
    requires lines != [] && forall k | 0 <= k < |lines| :: lines[k] != ""
    ensures Orderly(tr, acts, 1, 0) && tr[0] == Start(lines, |lines| - 1)
    ensures tr[|acts|].logs == tr[0].logs && tr[|acts|].ahead == |lines| - 1
    ensures tr[|acts|].tailers == map[] && tr[|acts|].store.mux == Store.Loading(Saved(Bytes(lines, |lines|)))
    ensures tr[|acts|].store.disk == Holds(Saved(Bytes(lines, |lines|)))
    ensures tr[|acts|].store.cache.Keys == {"k"} && Store.Kids(tr[|acts|].store, "k") == map[]
    ensures tr[|acts|].store.cache["k"] < |tr[|acts|].store.nodes|
  {
    tr, acts := ReachCrash(lines);
    tr, acts := GrowOne(tr, acts, Inner(Store.LoadBegin), 1, 0);
    assert tr[|acts|].store.mux == Store.Loading(Saved(Bytes(lines, |lines|)));
    tr, acts := GrowOne(tr, acts, Inner(Store.LoadKey("k")), 1, 0);
  }

  lemma ReachReloaded(lines: seq<string>) returns (tr: seq<System>, acts: seq<Action>)
    requires lines != [] && forall k | 0 <= k < |lines| :: lines[k] != ""
    ensures Orderly(tr, acts, 1, 0) && tr[0] == Start(lines, |lines| - 1)
    ensures tr[|acts|].logs == tr[0].logs && tr[|acts|].ahead == |lines| - 1
    ensures tr[|acts|].tailers == map[] && tr[|acts|].store.mux == Store.Free
    ensures "k" in tr[|acts|].store.cache && "f" in Store.Kids(tr[|acts|].store, "k")
    ensures Loads(tr, acts, |acts| - 1, "k", "f")
    ensures Store.Value(tr[|acts|].store, Store.Kids(tr[|acts|].store, "k")["f"]) == Bytes(lines, |lines|)
  {
    tr, acts := ReachLoading(lines);
    tr, acts := GrowOne(tr, acts, Inner(Store.LoadChild("k", "f")), 1, 0);
    assert Saved(Bytes(lines, |lines|))["k"].Keys == {"f"};
    tr, acts := GrowOne(tr, acts, Inner(Store.LoadEnd), 1, 0);
  }

  // The second process has started its tailer, whose entry was loaded.
  lemma ReachRestarted(lines: seq<string>) returns (tr: seq<System>, acts: seq<Action>, l: nat)
    requires lines != [] && forall k | 0 <= k < |lines| :: lines[k] != ""
    ensures Orderly(tr, acts, 1, 1) && Restored(tr, acts, P, l, |acts|) && tr[0] == Start(lines, |lines| - 1)
    ensures tr[|acts|].logs == tr[0].logs && tr[|acts|].ahead == |lines| - 1 && tr[|acts|].store.mux == Store.Free
    ensures HasEntryFor(tr[|acts|], "k", "f")
    ensures Store.Value(tr[|acts|].store, Store.Kids(tr[|acts|].store, "k")["f"]) == Bytes(lines, |lines|)
    ensures tr[|acts|].tailers == map[0 := Tailer("k", "f", 0, true, Starting)]
  {
    var before, steps := ReachReloaded(lines);
    l := |steps| - 1;
    tr, acts := GrowOne(before, steps, Spawn(0, "k", "f"), 1, 0);
    assert tr[l] == tr[..|before|][l];
  }

  lemma ReachAtOffset(lines: seq<string>) returns (tr: seq<System>, acts: seq<Action>)
    requires lines != [] && forall k | 0 <= k < |lines| :: lines[k] != ""
    ensures Orderly(tr, acts, 1, 1) && tr[0] == Start(lines, |lines| - 1)
    ensures tr[|acts|].logs == tr[0].logs && tr[|acts|].ahead == |lines| - 1
    ensures tr[|acts|].tailers == map[0 := Tailer("k", "f", 0, true, At(Bytes(lines, |lines|)))]
  {
    var l;
    tr, acts, l := ReachRestarted(lines);
    tr, acts := GrowOne(tr, acts, CheckEntry(0), 1, 1);
    assert tr[|acts|].tailers == map[0 := Tailer("k", "f", 0, true, HasEntry)];
    tr, acts := GrowOne(tr, acts, ReadEntry(0), 1, 1);
  }

  // For every file of n >= 1 lines, with Tell up to n - 1 lines ahead, one crash
  // and one resumption can lose all n lines, also with one tailer per process and
  // an entry found at the restart: the bound ahead + 1 per crash is tight.
  lemma LossIsTight(lines: seq<string>)
    requires lines != [] && forall k | 0 <= k < |lines| :: lines[k] != ""
    ensures exists tr: seq<System>, acts: seq<Action> :: (
      && Run(tr, acts) && Init(tr[0]) && tr[0].ahead + 1 == |lines|
      && OnePerProcess(acts, P) && AlwaysRestored(tr, acts, P) && Crashes(acts, |acts|) == 1
      && P in tr[|acts|].logs
      && tr[|acts|].logs[P] == FileLog(lines, [], |lines|, [Gap(0, |lines|)], [], 1))
  {
    var tr, acts := ReachAtOffset(lines);
    tr, acts := GrowOne(tr, acts, OpenAt(0, |lines|), 1, 1);
  }

  function OneSettled(lines: seq<string>): map<(string, string), FileLog> {
    map[("k", "f") := FileLog(lines, [0], 1, [], [], 0)]
  }

  lemma PublishedFirst(lines: seq<string>)
    ensures map[("k", "f") := NewLog(lines)][("k", "f") := PublishedLine(NewLog(lines), 0, true)] == OneSettled(lines)
  {
    assert [] + [0] == [0];
  }

  lemma ReachPublished(lines: seq<string>) returns (tr: seq<System>, acts: seq<Action>)
    requires |lines| >= 2 && forall k | 0 <= k < |lines| :: lines[k] != ""
    ensures Orderly(tr, acts, 0, 1) && tr[0] == Start(lines, |lines| - 1)
    ensures tr[|acts|].store == Box(Bytes(lines, |lines|)) && tr[|acts|].logs == OneSettled(lines)
    ensures tr[|acts|].tailers == map[0 := Tailer("k", "f", 1, true, Idle)]
  {
    tr, acts := ReachUpdated(lines);
    PublishedFirst(lines);
    tr, acts := GrowOne(tr, acts, Publish(0), 0, 1);
  }

  // The first tailer published one line and quit; the box is ahead of it.
  lemma ReachQuit(lines: seq<string>) returns (tr: seq<System>, acts: seq<Action>)
    requires |lines| >= 2 && forall k | 0 <= k < |lines| :: lines[k] != ""
    ensures Orderly(tr, acts, 0, 1) && tr[0] == Start(lines, |lines| - 1)
    ensures tr[|acts|].store == Box(Bytes(lines, |lines|)) && tr[|acts|].tailers.Keys == {0}
    ensures tr[|acts|].logs == OneSettled(lines)
  {
    tr, acts := ReachPublished(lines);
    tr, acts := GrowOne(tr, acts, Quit(0), 0, 1);
  }

  lemma ReachSecondAt(lines: seq<string>) returns (tr: seq<System>, acts: seq<Action>)
    requires |lines| >= 2 && forall k | 0 <= k < |lines| :: lines[k] != ""
    ensures Run(tr, acts) && tr[0] == Start(lines, |lines| - 1) && Crashes(acts, |acts|) == 0
    ensures tr[|acts|].logs == OneSettled(lines)
    ensures 1 in tr[|acts|].tailers
    ensures tr[|acts|].tailers[1] == Tailer("k", "f", 0, true, At(Bytes(lines, |lines|)))
  {
    tr, acts := ReachQuit(lines);
    tr, acts := Grow(tr, acts, Spawn(1, "k", "f"));
    tr, acts := Grow(tr, acts, CheckEntry(1));
    assert tr[|acts|].store == Box(Bytes(lines, |lines|));
    tr, acts := Grow(tr, acts, ReadEntry(1));
  }

  // With two tailers of a file in one process lines can be lost without any
  // crash: the second resumes where Tell was ahead of the first, which quit.
  lemma LossWithoutCrash(lines: seq<string>)
    requires |lines| >= 2 && forall k | 0 <= k < |lines| :: lines[k] != ""
    ensures exists tr: seq<System>, acts: seq<Action> :: (
      && Run(tr, acts) && Init(tr[0]) && tr[0].ahead + 1 == |lines| && Crashes(acts, |acts|) == 0
      && ("k", "f") in tr[|acts|].logs
      && tr[|acts|].logs[("k", "f")] == FileLog(lines, [0], |lines|, [Gap(1, |lines|)], [], 1))
  {
    var tr, acts := ReachSecondAt(lines);
    tr, acts := Grow(tr, acts, OpenAt(1, |lines|));
  }

  // --- a second waiter ---

  lemma ReachListed() returns (tr: seq<System>, acts: seq<Action>)
    ensures Run(tr, acts) && tr[0] == Start([], 0)
    ensures tr[|acts|] == Tailing([], 0).(listener := Listener([Call("k", Listed)], map["k" := 0], [], [Added(0)]))
  {
    tr, acts := ReachTailing([], 0);
    tr, acts := Grow(tr, acts, Block("k"));
    tr, acts := Grow(tr, acts, AddWaiter(0));
  }

  // A call for a container that has a waiter is refused.
  lemma RefusedReachable()
    ensures exists tr: seq<System>, acts: seq<Action> :: Run(tr, acts) && Init(tr[0]) && CallIs(tr[|acts|], 1, Refused)
  {
    var tr, acts := ReachListed();
    tr, acts := Grow(tr, acts, Block("k"));
    tr, acts := Grow(tr, acts, AddWaiter(1));
    assert Run(tr, acts) && Init(tr[0]) && CallIs(tr[|acts|], 1, Refused);
  }

  // --- GetFileCachedOffset can dereference nil ---

  lemma ReachStopped() returns (tr: seq<System>, acts: seq<Action>)
    ensures Run(tr, acts) && tr[0] == Start([], 0)
    ensures tr[|acts|] ==
            Tailing([], 0).(listener := Listener([Call("k", Released)], map[], [0], [Added(0), Stopped("k")]))
  {
    tr, acts := ReachListed();
    tr, acts := Grow(tr, acts, DockerEvent("k", true));
    assert tr[|acts|].listener == Listener([Call("k", Listed)], map[], [0], [Added(0), Stopped("k")]);
    tr, acts := Grow(tr, acts, Wake(0));
  }

  lemma ReachSecondTailer() returns (tr: seq<System>, acts: seq<Action>)
    ensures Run(tr, acts) && tr[0] == Start([], 0)
    ensures tr[|acts|].store == ONE_BOX && tr[|acts|].logs == tr[0].logs
    ensures 1 in tr[|acts|].tailers && tr[|acts|].tailers[1] == Tailer("k", "f", 0, true, HasEntry)
    ensures tr[|acts|].listener.calls == [Call("k", Released)]
  {
    tr, acts := ReachStopped();
    tr, acts := Grow(tr, acts, Spawn(1, "k", "f"));
    tr, acts := Grow(tr, acts, CheckEntry(1));
  }

  lemma ReachRemoved() returns (tr: seq<System>, acts: seq<Action>)
    ensures Run(tr, acts) && tr[0] == Start([], 0)
    ensures tr[|acts|].store == ONE_BOX.(cache := map[]) && tr[|acts|].logs == tr[0].logs
    ensures 1 in tr[|acts|].tailers && tr[|acts|].tailers[1] == Tailer("k", "f", 0, true, HasEntry)
  {
    tr, acts := ReachSecondTailer();
    tr, acts := Grow(tr, acts, RemoveKey(0));
  }

  // The stopped container is removed and registered again.
  lemma ReachReplaced() returns (tr: seq<System>, acts: seq<Action>)
    ensures Run(tr, acts) && Init(tr[0]) && Can(tr[|acts|], NilPanic(1))
  {
    tr, acts := ReachRemoved();
    tr, acts := Grow(tr, acts, TailCall("k"));
  }

  // A second tailFile of the same container sees its entry; before it reads the
  // offset the container is removed and registered again.
  lemma NilPanicReachable()
    ensures exists tr: seq<System>, acts: seq<Action> :: Run(tr, acts) && Init(tr[0]) && Can(tr[|acts|], NilPanic(1))
  {
    var tr, acts := ReachReplaced();
    assert Run(tr, acts) && Init(tr[0]) && Can(tr[|acts|], NilPanic(1));
  }
}
