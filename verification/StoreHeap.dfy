// What the memory of the tracker keeps in every interleaving: boxes are never
// shared, entries never vanish from a node, and a goroutine that still holds a
// node which left the cache can write only to that orphan.
module StoreHeap {
  import opened TrackerSpec
  import opened Store

  // Distinct (container, file) pairs of the cache have distinct boxes.
  lemma BoxIsolation(tr: seq<State>, acts: seq<Action>, i: nat,
                     k1: string, f1: string, k2: string, f2: string)
    requires Run(tr, acts) && Init(tr[0]) && i < |tr|
    requires k1 in tr[i].cache && f1 in Kids(tr[i], k1)
    requires k2 in tr[i].cache && f2 in Kids(tr[i], k2)
    ensures Kids(tr[i], k1)[f1] == Kids(tr[i], k2)[f2] <==> k1 == k2 && f1 == f2
    ensures Kids(tr[i], k1)[f1] < |tr[i].boxes|
  {
    InvRun(tr, acts, i);
  }

  ghost predicate NodeKept(s: State, t: State, n: nat) {
    n < |s.nodes| <= |t.nodes| && t.nodes[n].key == s.nodes[n].key
    && forall f | f in s.nodes[n].kids ::
         f in t.nodes[n].kids && t.nodes[n].kids[f] == s.nodes[n].kids[f]
  }

  lemma NodeKeptStep(s: State, a: Action, n: nat)
    requires Inv(s) && Can(s, a) && n < |s.nodes|
    ensures NodeKept(s, Do(s, a), n)
  {}

  // A file once present in a node stays there, with the same box, for ever:
  // the second lookup in Update never misses.
  lemma {:induction false} NodeKeptRun(tr: seq<State>, acts: seq<Action>, i: nat, j: nat, n: nat)
    requires Run(tr, acts) && Init(tr[0]) && i <= j < |tr| && n < |tr[i].nodes|
    ensures NodeKept(tr[i], tr[j], n)
  {
    if i < j {
      assert StepAt(tr, acts, j - 1);
      NodeKeptRun(tr, acts, i, j - 1, n);
      InvRun(tr, acts, j - 1);
      NodeKeptStep(tr[j - 1], acts[j - 1], n);
    }
  }

  ghost predicate Orphan(s: State, n: nat) {
    n < |s.nodes| && forall key | key in s.cache :: s.cache[key] != n
  }

  lemma OrphanStep(s: State, a: Action, n: nat)
    requires Can(s, a) && Orphan(s, n)
    ensures Orphan(Do(s, a), n)
  {}

  lemma {:induction false} OrphanRun(tr: seq<State>, acts: seq<Action>, i: nat, j: nat, n: nat)
    requires Run(tr, acts) && i <= j < |tr| && Orphan(tr[i], n)
    ensures Orphan(tr[j], n)
  {
    if i < j {
      assert StepAt(tr, acts, j - 1);
      OrphanRun(tr, acts, i, j - 1, n);
      OrphanStep(tr[j - 1], acts[j - 1], n);
    }
  }

  lemma ViewAt(s: State, key: string, file: string)
    requires key in s.cache && file in Kids(s, key)
    ensures View(s)[key][file] == Value(s, Kids(s, key)[file])
  {}

  lemma ViewIs(s: State, img: Image)
    requires SameShape(s, img)
    requires forall key, file | key in s.cache && file in Kids(s, key) ::
               img[key][file] == Value(s, Kids(s, key)[file])
    ensures View(s) == img
  {
    forall key | key in s.cache ensures View(s)[key] == img[key] {}
  }

  lemma StoreInOrphan(s: State, n: nat, file: string, offset: int)
    requires Inv(s) && Can(s, StoreBox(n, file, offset)) && Orphan(s, n)
    ensures View(Do(s, StoreBox(n, file, offset))) == View(s)
  {
    ViewIs(Do(s, StoreBox(n, file, offset)), View(s));
  }

  // Update found node n under `key` at moment i.  If at some later moment m the
  // key is gone or leads to another node (Remove, then RegisterInstance), then
  // whatever Update stores from m on changes nothing in the cache.
  lemma StaleUpdate(tr: seq<State>, acts: seq<Action>, i: nat, m: nat, j: nat,
                    key: string, n: nat, file: string, offset: int)
    requires Run(tr, acts) && Init(tr[0]) && i <= m <= j < |acts|
    requires key in tr[i].cache && tr[i].cache[key] == n
    requires key !in tr[m].cache || tr[m].cache[key] != n
    requires acts[j] == StoreBox(n, file, offset)
    ensures View(tr[j + 1]) == View(tr[j])
  {
    InvRun(tr, acts, i);
    InvRun(tr, acts, m);
    InvRun(tr, acts, j);
    NodeKeptRun(tr, acts, i, m, n);
    OrphanRun(tr, acts, m, j, n);
    assert StepAt(tr, acts, j);
    StoreInOrphan(tr[j], n, file, offset);
  }

  // --- each step, seen as an operation on the plain contents ---

  lemma BoxOfPair(s: State, k: string, f: string, key: string, file: string)
    requires Inv(s) && k in s.cache && f in Kids(s, k) && key in s.cache && file in Kids(s, key)
    ensures Kids(s, k)[f] == Kids(s, key)[file] <==> k == key && f == file
  {}

  lemma StoredValue(s: State, key: string, file: string, offset: int, k: string, f: string)
    requires Inv(s) && Running(s) && key in s.cache && file in Kids(s, key)
    requires k in s.cache && f in Kids(s, k)
    ensures var t, want := Do(s, StoreBox(s.cache[key], file, offset)), Updated(View(s), key, file, offset);
      Kids(t, k) == Kids(s, k) && k in want && f in want[k] && want[k][f] == Value(t, Kids(t, k)[f])
  {
    BoxOfPair(s, k, f, key, file);
    UpdatedAt(View(s), key, file, offset, k, f);
    ViewAt(s, k, f);
  }

  lemma StoredShape(s: State, key: string, file: string, offset: int)
    requires Inv(s) && key in s.cache && Can(s, StoreBox(s.cache[key], file, offset))
    ensures SameShape(Do(s, StoreBox(s.cache[key], file, offset)), Updated(View(s), key, file, offset))
  {
    UpdatedShape(View(s), key, file, offset);
  }

  lemma ViewOfUpdate(s: State, key: string, file: string, offset: int)
    requires Inv(s) && Running(s) && key in s.cache && file in Kids(s, key)
    ensures Can(s, StoreBox(s.cache[key], file, offset))
    ensures View(Do(s, StoreBox(s.cache[key], file, offset))) == Updated(View(s), key, file, offset)
  {
    var t := Do(s, StoreBox(s.cache[key], file, offset));
    var want := Updated(View(s), key, file, offset);
    StoredShape(s, key, file, offset);
    forall k, f | k in t.cache && f in Kids(t, k) ensures want[k][f] == Value(t, Kids(t, k)[f]) {
      StoredValue(s, key, file, offset, k, f);
    }
    ViewIs(t, want);
  }

  lemma ViewOfRegister(s: State, key: string)
    requires Inv(s) && Can(s, Register(key))
    ensures View(Do(s, Register(key))) == Registered(View(s), key)
  {
    ViewIs(Do(s, Register(key)), Registered(View(s), key));
  }

  // t has one box more than s, under (key, file).
  ghost predicate OneMore(s: State, t: State, key: string, file: string, offset: int) {
    && key in s.cache && file !in Kids(s, key)
    && t.cache == s.cache && Kids(t, key) == Kids(s, key)[file := |s.boxes|]
    && (forall k | k in s.cache && k != key :: Kids(t, k) == Kids(s, k))
    && (forall k, f | k in s.cache && f in Kids(s, k) ::
          Value(t, Kids(s, k)[f]) == Value(s, Kids(s, k)[f]))
    && Value(t, |s.boxes|) == offset
  }

  lemma ViewOfMore(s: State, t: State, key: string, file: string, offset: int)
    requires OneMore(s, t, key, file, offset)
    ensures View(t) == View(s)[key := View(s)[key][file := offset]]
  {
    var want := View(s)[key := View(s)[key][file := offset]];
    forall k, f | k in t.cache && f in Kids(t, k) ensures want[k][f] == Value(t, Kids(t, k)[f]) {
      if k != key || f != file { ViewAt(s, k, f); }
    }
    ViewIs(t, want);
  }

  lemma ViewOfInit(s: State, key: string, file: string, offset: int)
    requires Inv(s) && Can(s, InitChild(key, file, offset))
    ensures View(Do(s, InitChild(key, file, offset))) == Initialized(View(s), key, file, offset)
  {
    if key in s.cache && file !in Kids(s, key) {
      NewBox(s, key, file, offset);
      ViewOfMore(s, Do(s, InitChild(key, file, offset)), key, file, offset);
    }
  }

  lemma NewBox(s: State, key: string, file: string, offset: int)
    requires Inv(s) && Can(s, InitChild(key, file, offset)) && key in s.cache && file !in Kids(s, key)
    ensures OneMore(s, Do(s, InitChild(key, file, offset)), key, file, offset)
  {}

  lemma ViewOfDelete(s: State, key: string)
    requires Inv(s) && Can(s, Delete(key))
    ensures View(Do(s, Delete(key))) == Removed(View(s), key)
  {
    ViewIs(Do(s, Delete(key)), Removed(View(s), key));
  }

  // --- loading ---

  // What has been decoded so far agrees with the image.
  ghost predicate LoadingOk(s: State) {
    s.mux.Loading? ==>
      && (forall k | k in s.cache :: k in s.mux.source && Kids(s, k).Keys <= s.mux.source[k].Keys)
      && (forall k, f | k in s.cache && f in Kids(s, k) :: Value(s, Kids(s, k)[f]) == s.mux.source[k][f])
      && s.mux.source == Loaded(map[], s.disk)
  }

  lemma LoadChildOk(s: State, key: string, file: string)
    requires Inv(s) && LoadingOk(s) && Can(s, LoadChild(key, file))
    ensures LoadingOk(Do(s, LoadChild(key, file)))
  {
    var t := Do(s, LoadChild(key, file));
    assert Kids(t, key) == Kids(s, key)[file := |s.boxes|];
    assert forall k | k in s.cache && k != key :: Kids(t, k) == Kids(s, k);
  }

  lemma LoadingStep(s: State, a: Action)
    requires Inv(s) && LoadingOk(s) && Can(s, a)
    ensures LoadingOk(Do(s, a))
  {
    if a.LoadChild? {
      LoadChildOk(s, a.key, a.file);
    } else if a.LoadKey? {
      assert forall k | k in s.cache :: Kids(Do(s, a), k) == Kids(s, k);
    } else if a.LoadBegin? && s.disk.Holds? {
      assert map[] + s.disk.image == s.disk.image;
    }
  }

  lemma {:induction false} LoadingRun(tr: seq<State>, acts: seq<Action>, j: nat)
    requires Run(tr, acts) && Init(tr[0]) && j < |tr|
    ensures LoadingOk(tr[j])
  {
    if j > 0 {
      assert StepAt(tr, acts, j - 1);
      LoadingRun(tr, acts, j - 1);
      InvRun(tr, acts, j - 1);
      LoadingStep(tr[j - 1], acts[j - 1]);
    }
  }

  // Whenever loading is finished, in whatever order the entries were decoded, the
  // cache holds what the state file holds, and nothing if that is unreadable.
  lemma LoadRestores(tr: seq<State>, acts: seq<Action>, j: nat)
    requires Run(tr, acts) && Init(tr[0]) && j < |acts| && acts[j] == LoadEnd
    ensures View(tr[j + 1]) == Loaded(map[], tr[j].disk)
  {
    assert StepAt(tr, acts, j);
    LoadingRun(tr, acts, j);
    ViewIs(tr[j], tr[j].mux.source);
    ViewIs(tr[j + 1], tr[j].mux.source);
  }
}
