// What a commit writes and what a clean-up keeps, while lock-free updates run
// in between.
module StoreSnapshots {
  import opened TrackerSpec
  import opened Store

  // --- getBuffer ---

  // Moment i is the start of an encoding that ends with step j.
  ghost predicate EncodeWindow(tr: seq<State>, acts: seq<Action>, i: nat, j: nat) {
    && Run(tr, acts) && i < j < |acts| && acts[i] == EncodeBegin && acts[j] == EncodeEnd
    && forall m | i < m <= j :: tr[m].mux.Encoding?
  }

  lemma EncodeFreezes(s: State, a: Action)
    requires Can(s, a) && (s.mux.Encoding? || a == EncodeBegin) && Do(s, a).mux.Encoding?
    ensures Do(s, a).cache == s.cache && Do(s, a).nodes == s.nodes
  {}

  lemma {:induction false} ShapeFrozen(tr: seq<State>, acts: seq<Action>, i: nat, j: nat, m: nat)
    requires EncodeWindow(tr, acts, i, j) && i <= m <= j
    ensures tr[m].cache == tr[i].cache && tr[m].nodes == tr[i].nodes
  {
    if i < m {
      assert StepAt(tr, acts, m - 1);
      ShapeFrozen(tr, acts, i, j, m - 1);
      EncodeFreezes(tr[m - 1], acts[m - 1]);
    }
  }

  // The offset v was in the box of (key, file) at some moment from i up to m.
  ghost predicate HeldAt(tr: seq<State>, key: string, file: string, v: int, l: nat) {
    l < |tr| && file in Kids(tr[l], key) && Value(tr[l], Kids(tr[l], key)[file]) == v
  }

  ghost predicate Held(tr: seq<State>, i: nat, m: nat, key: string, file: string, v: int) {
    exists l :: i <= l < m && HeldAt(tr, key, file, v, l)
  }

  lemma HeldLonger(tr: seq<State>, i: nat, m: nat, key: string, file: string, v: int)
    requires Held(tr, i, m, key, file, v)
    ensures Held(tr, i, m + 1, key, file, v)
  {
    var l :| i <= l < m && HeldAt(tr, key, file, v, l);
    assert i <= l < m + 1 && HeldAt(tr, key, file, v, l);
  }

  lemma {:induction false} ReadsWereHeld(tr: seq<State>, acts: seq<Action>, i: nat, j: nat, m: nat)
    requires EncodeWindow(tr, acts, i, j) && i < m <= j
    ensures forall p | p in tr[m].mux.got :: Held(tr, i, m, p.0, p.1, tr[m].mux.got[p])
  {
    assert StepAt(tr, acts, m - 1);
    if i + 1 < m {
      ReadsWereHeld(tr, acts, i, j, m - 1);
      forall p | p in tr[m].mux.got ensures Held(tr, i, m, p.0, p.1, tr[m].mux.got[p]) {
        if acts[m - 1] == EncodeBox(p.0, p.1) {
          assert HeldAt(tr, p.0, p.1, tr[m].mux.got[p], m - 1);
        } else {
          assert tr[m].mux.got[p] == tr[m - 1].mux.got[p];
          HeldLonger(tr, i, m - 1, p.0, p.1, tr[m].mux.got[p]);
        }
      }
    }
  }

  // img is a snapshot made between the moments i and j: its shape is that of
  // the cache at every one of these moments, and each of its offsets was in
  // that very box at one of them.
  ghost predicate Snapshot(tr: seq<State>, i: nat, j: nat, img: Image) {
    && i < j < |tr|
    && (forall m | i <= m <= j ::
          SameShape(tr[m], img) && tr[m].cache == tr[i].cache && tr[m].nodes == tr[i].nodes)
    && (forall key, file | key in img && file in img[key] ::
          Held(tr, i, j, key, file, img[key][file]))
  }

  lemma EncodedShape(s: State, got: map<(string, string), int>)
    requires AllRead(s, got)
    ensures SameShape(s, Encoded(s, got))
    ensures forall key, file | key in s.cache && file in Kids(s, key) ::
              Encoded(s, got)[key][file] == got[(key, file)]
  {}

  lemma WindowGivesSnapshot(tr: seq<State>, acts: seq<Action>, i: nat, j: nat)
    requires EncodeWindow(tr, acts, i, j)
    ensures tr[j].tickets in tr[j + 1].pending
    ensures Snapshot(tr, i, j, tr[j + 1].pending[tr[j].tickets])
  {
    assert StepAt(tr, acts, j);
    var s := tr[j];
    var img := Encoded(s, s.mux.got);
    EncodedShape(s, s.mux.got);
    forall m | i <= m <= j
      ensures SameShape(tr[m], img) && tr[m].cache == tr[i].cache && tr[m].nodes == tr[i].nodes
    {
      ShapeFrozen(tr, acts, i, j, m);
      ShapeFrozen(tr, acts, i, j, j);
    }
    ReadsWereHeld(tr, acts, i, j, j);
    forall key, file | key in img && file in img[key]
      ensures Held(tr, i, j, key, file, img[key][file])
    {
      assert (key, file) in s.mux.got && img[key][file] == s.mux.got[(key, file)];
    }
  }

  // An encoding in progress has a beginning.
  lemma {:induction false} EncodingBegan(tr: seq<State>, acts: seq<Action>, j: nat) returns (i: nat)
    requires Run(tr, acts) && Init(tr[0]) && j < |tr| && tr[j].mux.Encoding?
    ensures i < j && acts[i] == EncodeBegin && forall m | i < m <= j :: tr[m].mux.Encoding?
  {
    assert StepAt(tr, acts, j - 1);
    if tr[j - 1].mux.Encoding? {
      i := EncodingBegan(tr, acts, j - 1);
    } else {
      i := j - 1;
    }
  }

  ghost predicate WasTaken(tr: seq<State>, j: nat, img: Image) {
    exists b: nat, e: nat :: b < e < j && Snapshot(tr, b, e, img)
  }

  // Every image ever taken is a snapshot.
  lemma {:induction false} TakenAreSnapshots(tr: seq<State>, acts: seq<Action>, j: nat)
    requires Run(tr, acts) && Init(tr[0]) && j < |tr|
    ensures forall img | img in tr[j].taken :: WasTaken(tr, j, img)
  {
    if j > 0 {
      assert StepAt(tr, acts, j - 1);
      TakenAreSnapshots(tr, acts, j - 1);
      forall img | img in tr[j].taken ensures WasTaken(tr, j, img) {
        if img in tr[j - 1].taken {
          assert WasTaken(tr, j - 1, img);
          var b: nat, e: nat :| b < e < j - 1 && Snapshot(tr, b, e, img);
          assert b < e < j && Snapshot(tr, b, e, img);
        } else {
          assert acts[j - 1] == EncodeEnd;
          var b := EncodingBegan(tr, acts, j - 1);
          WindowGivesSnapshot(tr, acts, b, j - 1);
          assert b < j - 1 < j && Snapshot(tr, b, j - 1, img);
        }
      }
    }
  }

  ghost predicate DiskKnown(s: State, first: Durable) {
    (s.disk.Holds? ==> s.disk == first || s.disk.image in s.taken)
  }

  lemma DiskKnownStep(s: State, a: Action, first: Durable)
    requires Inv(s) && Can(s, a) && DiskKnown(s, first)
    ensures DiskKnown(Do(s, a), first)
  {}

  lemma {:induction false} DiskKnownRun(tr: seq<State>, acts: seq<Action>, j: nat)
    requires Run(tr, acts) && Init(tr[0]) && j < |tr|
    ensures DiskKnown(tr[j], tr[0].disk)
  {
    if j > 0 {
      assert StepAt(tr, acts, j - 1);
      DiskKnownRun(tr, acts, j - 1);
      InvRun(tr, acts, j - 1);
      DiskKnownStep(tr[j - 1], acts[j - 1], tr[0].disk);
    }
  }

  // Over any run with any number of crashes, what the state file holds is what
  // it held at first, or a snapshot of the cache taken earlier.
  lemma DiskIsSnapshot(tr: seq<State>, acts: seq<Action>, j: nat)
    requires Run(tr, acts) && Init(tr[0]) && j < |tr| && tr[j].disk.Holds?
    ensures tr[j].disk == tr[0].disk || WasTaken(tr, j, tr[j].disk.image)
  {
    DiskKnownRun(tr, acts, j);
    TakenAreSnapshots(tr, acts, j);
  }

  // --- where offsets come from ---

  ghost predicate ImageAll(img: Image, good: iset<(string, string, int)>) {
    forall key, file | key in img && file in img[key] :: (key, file, img[key][file]) in good
  }

  ghost predicate BoxesAll(s: State, good: iset<(string, string, int)>) {
    forall n, file | 0 <= n < |s.nodes| && file in s.nodes[n].kids ::
      (s.nodes[n].key, file, Value(s, s.nodes[n].kids[file])) in good
  }

  ghost predicate MuxAll(s: State, good: iset<(string, string, int)>) {
    match s.mux
    case Encoding(got) => forall p | p in got :: (p.0, p.1, got[p]) in good
    case Loading(img) => ImageAll(img, good)
    case _ => true
  }

  // Every offset in memory is good (orphans included), in a half-made or
  // unwritten image, and in the state file.
  ghost predicate OffsetsAll(s: State, good: iset<(string, string, int)>) {
    && BoxesAll(s, good) && MuxAll(s, good)
    && (forall c | c in s.pending :: ImageAll(s.pending[c], good))
    && (s.disk.Holds? ==> ImageAll(s.disk.image, good))
  }

  ghost predicate PutsGood(s: State, a: Action, good: iset<(string, string, int)>) {
    match a
    case StoreBox(n, file, offset) => n < |s.nodes| ==> (s.nodes[n].key, file, offset) in good
    case InitChild(key, file, offset) => (key, file, offset) in good
    case _ => true
  }

  lemma BoxesAllStep(s: State, a: Action, good: iset<(string, string, int)>)
    requires Inv(s) && Can(s, a) && OffsetsAll(s, good) && PutsGood(s, a, good)
    ensures BoxesAll(Do(s, a), good)
  {}

  lemma MuxAllStep(s: State, a: Action, good: iset<(string, string, int)>)
    requires Inv(s) && Can(s, a) && OffsetsAll(s, good) && PutsGood(s, a, good)
    ensures MuxAll(Do(s, a), good)
  {}

  lemma PendingAllStep(s: State, a: Action, good: iset<(string, string, int)>)
    requires Inv(s) && Can(s, a) && OffsetsAll(s, good)
    ensures forall c | c in Do(s, a).pending :: ImageAll(Do(s, a).pending[c], good)
  {
    if a == EncodeEnd { EncodedShape(s, s.mux.got); }
  }

  // Committing, loading, registering and cleaning up invent no offset: every
  // offset anywhere was put there by Update or InitializeChildNode for the same
  // container and file.
  lemma OffsetsStep(s: State, a: Action, good: iset<(string, string, int)>)
    requires Inv(s) && Can(s, a) && OffsetsAll(s, good) && PutsGood(s, a, good)
    ensures OffsetsAll(Do(s, a), good)
  {
    BoxesAllStep(s, a, good);
    MuxAllStep(s, a, good);
    PendingAllStep(s, a, good);
  }

  // --- CleanUp ---

  ghost predicate CleanWindow(tr: seq<State>, acts: seq<Action>, i: nat, j: nat, live: set<string>) {
    && Run(tr, acts) && i < j < |acts| && acts[i] == CleanBegin(live) && acts[j] == CleanEnd
    && forall m | i < m <= j :: tr[m].mux.Cleaning?
  }

  lemma {:induction false} CleanProgress(tr: seq<State>, acts: seq<Action>, i: nat, j: nat,
                                         live: set<string>, m: nat)
    requires CleanWindow(tr, acts, i, j, live) && i < m <= j
    ensures tr[m].nodes == tr[i].nodes
    ensures tr[m].mux.doomed <= tr[i].cache.Keys - live
    ensures tr[m].cache == map key | key in tr[i].cache && (key in live || key in tr[m].mux.doomed) :: tr[i].cache[key]
  {
    assert StepAt(tr, acts, m - 1);
    if i + 1 < m {
      CleanProgress(tr, acts, i, j, live, m - 1);
      assert acts[m - 1].CleanDelete? || acts[m - 1].StoreBox? || acts[m - 1].WriteBegin? || acts[m - 1].WriteEnd?;
    }
  }

  // CleanUp keeps exactly the live containers, each with its node as it was.
  lemma CleanUpKeepsLive(tr: seq<State>, acts: seq<Action>, i: nat, j: nat, live: set<string>)
    requires CleanWindow(tr, acts, i, j, live)
    ensures tr[j + 1].cache == map key | key in tr[i].cache && key in live :: tr[i].cache[key]
    ensures tr[j + 1].nodes == tr[i].nodes
  {
    assert StepAt(tr, acts, j);
    CleanProgress(tr, acts, i, j, live, j);
  }
}
