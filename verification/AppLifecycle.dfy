// Why containers leave the cache, and that no waiter's channel is closed twice.
module AppLifecycle {
  import Store
  import opened Apptail
  import opened AppEntries

  ghost predicate AddedIn(notes: seq<Note>, call: nat) {
    exists i :: 0 <= i < |notes| && notes[i] == Added(call)
  }

  // The waiter of the call was entered, and later a stop event for the key handled.
  ghost predicate StoppedAfter(notes: seq<Note>, call: nat, key: string) {
    exists j :: 0 <= j < |notes| && notes[j] == Stopped(key) && AddedIn(notes[..j], call)
  }

  ghost predicate WaiterOk(l: Listener, key: string)
    requires key in l.waiters
  {
    var c := l.waiters[key];
    c < |l.calls| && l.calls[c] == Call(key, Listed) && c !in l.closed && AddedIn(l.notes, c)
  }

  ghost predicate ClosedOk(l: Listener, c: nat) {
    c < |l.calls| && (l.calls[c].at.Listed? || l.calls[c].at.Released? || l.calls[c].at.Removed?)
    && StoppedAfter(l.notes, c, l.calls[c].key)
  }

  ghost predicate ListenerInv(l: Listener) {
    && (forall key | key in l.waiters :: WaiterOk(l, key))
    && (forall c | c in l.closed :: ClosedOk(l, c))
    && (forall i, j | 0 <= i < j < |l.closed| :: l.closed[i] != l.closed[j])
    && (forall c | 0 <= c < |l.calls| && (l.calls[c].at.Released? || l.calls[c].at.Removed?) :: c in l.closed)
  }

  // Every waiter ever entered is still there, or its channel is closed.
  ghost predicate EnteredOk(l: Listener, c: nat) {
    c < |l.calls| && (c in l.closed || (l.calls[c].key in l.waiters && l.waiters[l.calls[c].key] == c))
  }

  // ... and no stop event for its container has passed it by.
  ghost predicate NotMissed(l: Listener, c: nat) {
    c < |l.calls| && StoppedAfter(l.notes, c, l.calls[c].key) ==> c in l.closed
  }

  ghost predicate WokenInv(l: Listener) {
    (forall c | AddedIn(l.notes, c) :: EnteredOk(l, c)) && forall c :: NotMissed(l, c)
  }

  lemma FewerNotes(notes: seq<Note>, note: Note, c: nat, key: string)
    ensures AddedIn(notes + [note], c) ==> AddedIn(notes, c) || note == Added(c)
    ensures StoppedAfter(notes + [note], c, key) ==>
              StoppedAfter(notes, c, key) || (AddedIn(notes, c) && note == Stopped(key))
  {
    var more := notes + [note];
    if AddedIn(more, c) {
      var i :| 0 <= i < |more| && more[i] == Added(c);
      if i < |notes| { assert notes[i] == Added(c); }
    }
    if StoppedAfter(more, c, key) {
      var j :| 0 <= j < |more| && more[j] == Stopped(key) && AddedIn(more[..j], c);
      if j < |notes| {
        assert notes[j] == Stopped(key) && more[..j] == notes[..j];
      } else {
        assert more[..j] == notes;
      }
    }
  }

  lemma EnteredStep(s: System, a: Action, c: nat)
    requires Can(s, a) && ListenerInv(s.listener) && WokenInv(s.listener) && AddedIn(ListenerAfter(s, a).notes, c)
    ensures EnteredOk(ListenerAfter(s, a), c)
  {
    var l := s.listener;
    if AddedIn(l.notes, c) { assert EnteredOk(l, c); }
    match a
    case AddWaiter(d) => FewerNotes(l.notes, Added(d), c, "");
    case DockerEvent(k, stops) => FewerNotes(l.notes, Stopped(k), c, "");
    case _ =>
  }

  lemma NotMissedStep(s: System, a: Action, c: nat)
    requires Can(s, a) && ListenerInv(s.listener) && WokenInv(s.listener)
    ensures NotMissed(ListenerAfter(s, a), c)
  {
    var l, next := s.listener, ListenerAfter(s, a);
    assert NotMissed(l, c);
    if AddedIn(l.notes, c) { assert EnteredOk(l, c); }
    if c < |next.calls| {
      var key := next.calls[c].key;
      match a
      case AddWaiter(d) => FewerNotes(l.notes, Added(d), c, key);
      case DockerEvent(k, stops) => FewerNotes(l.notes, Stopped(k), c, key);
      case Block(_) => if StoppedAfter(next.notes, c, key) { StoppedWasAdded(l.notes, c, key); }
      case _ =>
    }
  }

  lemma StoppedWasAdded(notes: seq<Note>, c: nat, key: string)
    requires StoppedAfter(notes, c, key)
    ensures AddedIn(notes, c)
  {
    var j :| 0 <= j < |notes| && notes[j] == Stopped(key) && AddedIn(notes[..j], c);
    var i :| 0 <= i < |notes[..j]| && notes[..j][i] == Added(c);
    assert notes[i] == Added(c);
  }

  lemma {:induction false} WokenRun(tr: seq<System>, acts: seq<Action>, j: nat)
    requires Run(tr, acts) && Init(tr[0]) && j < |tr|
    ensures WokenInv(tr[j].listener)
  {
    if j > 0 {
      var s, a := tr[j - 1], acts[j - 1];
      assert StepAt(tr, acts, j - 1);
      WokenRun(tr, acts, j - 1);
      ListenerRun(tr, acts, j - 1);
      forall c | AddedIn(ListenerAfter(s, a).notes, c) ensures EnteredOk(ListenerAfter(s, a), c) {
        EnteredStep(s, a, c);
      }
      forall c ensures NotMissed(ListenerAfter(s, a), c) { NotMissedStep(s, a, c); }
    }
  }

  // --- the notes are what happened ---

  // In step i of the present process the waiter of the call was entered.
  ghost predicate Entry(tr: seq<System>, acts: seq<Action>, i: nat, j: nat, c: nat)
    requires |tr| == |acts| + 1 && j <= |acts|
  {
    i < j && acts[i] == AddWaiter(c) && CallIs(tr[i + 1], c, Listed) && Alive(acts, i, j)
  }

  ghost predicate EnteredBefore(tr: seq<System>, acts: seq<Action>, j: nat, c: nat)
    requires |tr| == |acts| + 1 && j <= |acts|
  {
    exists i: nat :: Entry(tr, acts, i, j, c)
  }

  // In step m, later than that, a die or kill event for the container was handled.
  ghost predicate Stop(tr: seq<System>, acts: seq<Action>, m: nat, j: nat, c: nat, key: string)
    requires |tr| == |acts| + 1 && j <= |acts|
  {
    m < j && acts[m] == DockerEvent(key, true) && EnteredBefore(tr, acts, m, c) && Alive(acts, m, j)
  }

  ghost predicate StopHandled(tr: seq<System>, acts: seq<Action>, j: nat, c: nat, key: string)
    requires |tr| == |acts| + 1 && j <= |acts|
  {
    exists m: nat :: Stop(tr, acts, m, j, c, key)
  }

  lemma EnteredNext(tr: seq<System>, acts: seq<Action>, j: nat, c: nat)
    requires |tr| == |acts| + 1 && j < |acts|
    ensures EnteredBefore(tr, acts, j + 1, c) <==>
            !Dies(acts[j])
            && (EnteredBefore(tr, acts, j, c) || (acts[j] == AddWaiter(c) && CallIs(tr[j + 1], c, Listed)))
  {
    if EnteredBefore(tr, acts, j + 1, c) {
      var i: nat :| Entry(tr, acts, i, j + 1, c);
      if i < j { assert Entry(tr, acts, i, j, c); }
    }
    if EnteredBefore(tr, acts, j, c) && !Dies(acts[j]) {
      var i: nat :| Entry(tr, acts, i, j, c);
      assert Entry(tr, acts, i, j + 1, c);
    }
    if acts[j] == AddWaiter(c) && CallIs(tr[j + 1], c, Listed) { assert Entry(tr, acts, j, j + 1, c); }
  }

  lemma StopNext(tr: seq<System>, acts: seq<Action>, j: nat, c: nat, key: string)
    requires |tr| == |acts| + 1 && j < |acts|
    ensures StopHandled(tr, acts, j + 1, c, key) <==>
            !Dies(acts[j])
            && (StopHandled(tr, acts, j, c, key)
                || (acts[j] == DockerEvent(key, true) && EnteredBefore(tr, acts, j, c)))
  {
    if StopHandled(tr, acts, j + 1, c, key) {
      var m: nat :| Stop(tr, acts, m, j + 1, c, key);
      if m < j { assert Stop(tr, acts, m, j, c, key); }
    }
    if StopHandled(tr, acts, j, c, key) && !Dies(acts[j]) {
      var m: nat :| Stop(tr, acts, m, j, c, key);
      assert Stop(tr, acts, m, j + 1, c, key);
    }
    if acts[j] == DockerEvent(key, true) && EnteredBefore(tr, acts, j, c) {
      assert Stop(tr, acts, j, j + 1, c, key);
    }
  }

  // What a step adds to the notes.
  lemma EntryNoted(s: System, a: Action, c: nat)
    requires Can(s, a)
    ensures var notes, next := s.listener.notes, ListenerAfter(s, a);
      AddedIn(next.notes, c) <==>
      !Dies(a) && (AddedIn(notes, c) || (a == AddWaiter(c) && c < |next.calls| && next.calls[c].at == Listed))
  {
    var notes := s.listener.notes;
    match a
    case AddWaiter(d) =>
      MoreNotes(notes, Added(d), c, "");
      FewerNotes(notes, Added(d), c, "");
    case DockerEvent(k, stops) =>
      MoreNotes(notes, Stopped(k), c, "");
      FewerNotes(notes, Stopped(k), c, "");
    case _ =>
  }

  lemma StopNoted(s: System, a: Action, c: nat, key: string)
    requires Can(s, a)
    ensures StoppedAfter(ListenerAfter(s, a).notes, c, key) <==>
            !Dies(a) && (StoppedAfter(s.listener.notes, c, key)
                         || (a == DockerEvent(key, true) && AddedIn(s.listener.notes, c)))
  {
    var notes := s.listener.notes;
    match a
    case AddWaiter(d) =>
      MoreNotes(notes, Added(d), c, key);
      FewerNotes(notes, Added(d), c, key);
    case DockerEvent(k, stops) =>
      MoreNotes(notes, Stopped(k), c, key);
      FewerNotes(notes, Stopped(k), c, key);
    case _ =>
  }

  lemma {:induction false} NotesTell(tr: seq<System>, acts: seq<Action>, j: nat, c: nat, key: string)
    requires Run(tr, acts) && Init(tr[0]) && j < |tr|
    ensures AddedIn(tr[j].listener.notes, c) <==> EnteredBefore(tr, acts, j, c)
    ensures StoppedAfter(tr[j].listener.notes, c, key) <==> StopHandled(tr, acts, j, c, key)
  {
    if j > 0 {
      assert StepAt(tr, acts, j - 1);
      NotesTell(tr, acts, j - 1, c, key);
      EntryNoted(tr[j - 1], acts[j - 1], c);
      StopNoted(tr[j - 1], acts[j - 1], c, key);
      EnteredNext(tr, acts, j - 1, c);
      StopNext(tr, acts, j - 1, c, key);
    }
  }

  // The channel of a call is closed exactly when in this process a die or kill
  // event for its container was handled after its waiter had been entered.
  lemma ClosedExactly(tr: seq<System>, acts: seq<Action>, j: nat, c: nat)
    requires Run(tr, acts) && Init(tr[0]) && j < |tr| && c < |tr[j].listener.calls|
    ensures c in tr[j].listener.closed <==> StopHandled(tr, acts, j, c, tr[j].listener.calls[c].key)
  {
    ListenerRun(tr, acts, j);
    WokenRun(tr, acts, j);
    NotesTell(tr, acts, j, c, tr[j].listener.calls[c].key);
    assert NotMissed(tr[j].listener, c);
    if c in tr[j].listener.closed { assert ClosedOk(tr[j].listener, c); }
  }

  lemma MoreNotes(notes: seq<Note>, note: Note, c: nat, key: string)
    ensures AddedIn(notes, c) ==> AddedIn(notes + [note], c)
    ensures StoppedAfter(notes, c, key) ==> StoppedAfter(notes + [note], c, key)
    ensures AddedIn(notes, c) && note == Stopped(key) ==> StoppedAfter(notes + [note], c, key)
    ensures note == Added(c) ==> AddedIn(notes + [note], c)
  {
    var more := notes + [note];
    if AddedIn(notes, c) {
      var i :| 0 <= i < |notes| && notes[i] == Added(c);
      assert more[i] == Added(c);
    }
    if StoppedAfter(notes, c, key) {
      var j :| 0 <= j < |notes| && notes[j] == Stopped(key) && AddedIn(notes[..j], c);
      assert more[j] == Stopped(key) && more[..j] == notes[..j];
    }
    assert more[|notes|] == note && more[..|notes|] == notes;
  }

  lemma WaiterStep(s: System, a: Action, key: string)
    requires Can(s, a) && ListenerInv(s.listener) && key in ListenerAfter(s, a).waiters
    ensures WaiterOk(ListenerAfter(s, a), key)
  {
    var l := s.listener;
    var next := ListenerAfter(s, a);
    var c := next.waiters[key];
    if key in l.waiters { assert WaiterOk(l, key); }
    match a
    case AddWaiter(d) =>
      MoreNotes(l.notes, Added(d), c, key);
      assert d in l.closed ==> ClosedOk(l, d);
    case DockerEvent(k, stops) => MoreNotes(l.notes, Stopped(k), c, key);
    case _ =>
  }

  lemma ClosedStep(s: System, a: Action, c: nat)
    requires Can(s, a) && ListenerInv(s.listener) && c in ListenerAfter(s, a).closed
    ensures ClosedOk(ListenerAfter(s, a), c)
  {
    var l := s.listener;
    if c in l.closed { assert ClosedOk(l, c); }
    match a
    case AddWaiter(d) => MoreNotes(l.notes, Added(d), c, l.calls[c].key);
    case DockerEvent(k, stops) =>
      if k in l.waiters { assert WaiterOk(l, k); }
      MoreNotes(l.notes, Stopped(k), c, l.calls[c].key);
    case _ =>
  }

  lemma ListenerStep(s: System, a: Action)
    requires Can(s, a) && ListenerInv(s.listener)
    ensures ListenerInv(ListenerAfter(s, a))
  {
    var next := ListenerAfter(s, a);
    forall key | key in next.waiters ensures WaiterOk(next, key) { WaiterStep(s, a, key); }
    forall c | c in next.closed ensures ClosedOk(next, c) { ClosedStep(s, a, c); }
    if a.DockerEvent? && a.key in s.listener.waiters { assert WaiterOk(s.listener, a.key); }
  }

  lemma {:induction false} ListenerRun(tr: seq<System>, acts: seq<Action>, j: nat)
    requires Run(tr, acts) && Init(tr[0]) && j < |tr|
    ensures ListenerInv(tr[j].listener)
  {
    if j > 0 {
      assert StepAt(tr, acts, j - 1);
      ListenerRun(tr, acts, j - 1);
      ListenerStep(tr[j - 1], acts[j - 1]);
    }
  }

  // Within a process no channel is ever closed twice, not even on kill followed
  // by die, and the channels in the waiter map are distinct and open.
  lemma ChannelsClosedOnce(tr: seq<System>, acts: seq<Action>, j: nat)
    requires Run(tr, acts) && Init(tr[0]) && j < |tr|
    ensures forall m, n | 0 <= m < n < |tr[j].listener.closed| ::
              tr[j].listener.closed[m] != tr[j].listener.closed[n]
    ensures forall k | k in tr[j].listener.waiters :: tr[j].listener.waiters[k] !in tr[j].listener.closed
    ensures forall k, l | k in tr[j].listener.waiters && l in tr[j].listener.waiters && k != l ::
              tr[j].listener.waiters[k] != tr[j].listener.waiters[l]
  {
    ListenerRun(tr, acts, j);
    forall k | k in tr[j].listener.waiters ensures WaiterOk(tr[j].listener, k) {}
  }

  // A second waiter for a container that already has one is not entered in the
  // map: it waits until the process ends, and never removes the container.
  lemma {:induction false} RefusedWaitsForever(tr: seq<System>, acts: seq<Action>, i: nat, j: nat, c: nat)
    requires Run(tr, acts) && Init(tr[0]) && i <= j < |tr| && CallIs(tr[i], c, Refused)
    requires forall m | i <= m < j :: !acts[m].Die? && !acts[m].NilPanic?
    ensures CallIs(tr[j], c, Refused) && c !in tr[j].listener.closed
  {
    ListenerRun(tr, acts, j);
    if i < j {
      assert StepAt(tr, acts, j - 1);
      RefusedWaitsForever(tr, acts, i, j - 1, c);
    }
    if c in tr[j].listener.closed { assert ClosedOk(tr[j].listener, c); }
  }

  lemma RemovedStep(s: System, a: Action, c: nat)
    requires Can(s, a) && CallIs(s, c, Removed) && !Dies(a)
    ensures CallIs(Do(s, a), c, Removed)
  {}

  lemma {:induction false} StaysRemoved(tr: seq<System>, acts: seq<Action>, i: nat, j: nat, c: nat)
    requires Run(tr, acts) && i < j < |tr| && acts[i] == RemoveKey(c) && Alive(acts, i, j)
    ensures CallIs(tr[j], c, Removed)
  {
    assert StepAt(tr, acts, j - 1);
    if i + 1 < j {
      StaysRemoved(tr, acts, i, j - 1, c);
      RemovedStep(tr[j - 1], acts[j - 1], c);
    }
  }

  // Each call removes its container at most once.
  lemma RemovesOnce(tr: seq<System>, acts: seq<Action>, i: nat, j: nat, c: nat)
    requires Run(tr, acts) && i < j < |acts| && acts[i] == RemoveKey(c) && Alive(acts, i, j)
    ensures acts[j] != RemoveKey(c)
  {
    StaysRemoved(tr, acts, i, j, c);
    assert StepAt(tr, acts, j);
  }

  // Step i is a clean-up that found the key missing from the live containers.
  ghost predicate FoundDead(tr: seq<System>, acts: seq<Action>, i: nat, key: string) {
    i < |acts| && i < |tr| && acts[i].Inner? && acts[i].act.CleanBegin?
    && key !in acts[i].act.live && acts[i].act.live != {} && key in tr[i].store.cache
  }

  // The clean-up in progress at moment j began with step i, which found the key
  // missing from the live containers.
  ghost predicate DoomedSince(tr: seq<System>, acts: seq<Action>, i: nat, j: nat, key: string) {
    i < j < |tr| && FoundDead(tr, acts, i, key) && forall m | i < m <= j :: tr[m].store.mux.Cleaning?
  }

  lemma {:induction false} DoomedWasDead(tr: seq<System>, acts: seq<Action>, j: nat, key: string) returns (i: nat)
    requires Run(tr, acts) && Init(tr[0]) && j < |tr|
    requires tr[j].store.mux.Cleaning? && key in tr[j].store.mux.doomed
    ensures DoomedSince(tr, acts, i, j, key)
  {
    assert StepAt(tr, acts, j - 1);
    if tr[j - 1].store.mux.Cleaning? {
      i := DoomedWasDead(tr, acts, j - 1, key);
    } else {
      i := j - 1;
    }
  }

  // A container leaves the cache only with the process, or by a deletion of the
  // clean-up then in progress, which found it dead, or by the removal after a
  // call that waited for this container, a stop event for which was handled
  // after the call's waiter had been entered.
  lemma WhyRemoved(tr: seq<System>, acts: seq<Action>, j: nat, key: string)
    requires Run(tr, acts) && Init(tr[0]) && j < |acts|
    requires key in tr[j].store.cache && key !in tr[j + 1].store.cache
    ensures acts[j].Die? || acts[j].NilPanic?
      || (acts[j] == Inner(Store.CleanDelete(key)) && exists i: nat :: DoomedSince(tr, acts, i, j, key))
      || (acts[j].RemoveKey? && CallIs(tr[j], acts[j].call, Released)
          && tr[j].listener.calls[acts[j].call].key == key
          && StopHandled(tr, acts, j, acts[j].call, key))
  {
    assert StepAt(tr, acts, j);
    ListenerRun(tr, acts, j);
    var s, a := tr[j], acts[j];
    if a.RemoveKey? {
      assert a.call in s.listener.closed && ClosedOk(s.listener, a.call);
      NotesTell(tr, acts, j, a.call, key);
    } else if a == Inner(Store.CleanDelete(key)) {
      var i := DoomedWasDead(tr, acts, j, key);
    }
  }
}
