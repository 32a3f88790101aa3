// Drain, Seek and any number of Reads on one wrapper at the same time.  Each
// operation on the buffer is one step.  The producer writes without the lock
// and takes it only to broadcast; Seek never takes it.
module SeekerProtocol {
  import opened Seeker

  datatype Drain =
    | AtSource
    | HasChunk(chunk: bytes, failed: bool)
    | Wrote(count: nat, failed: bool)     // next: look at the error, then at the buffer
    | WantsLock
    | Holding                             // has the lock, next: Broadcast
    | Signalled                           // has the lock, next: Unlock
    | Exited(count: nat)                  // the last read failed and delivered count bytes

  datatype Reader =
    | WantLock(n: nat)
    | Checking(n: nat)       // has the lock, next: is the buffer empty?
    | SawEmpty(n: nat)       // has the lock, next: Wait
    | Waiting(n: nat)
    | Ready(n: nat)          // has the lock, next: buffer.Read
    | Took                   // has the lock, next: broadcast if bytes are left
    | Unlocking              // has the lock

  datatype Lock = Unlocked | ByDrain | ByReader(r: nat)

  datatype Removal = Delivered(reader: nat, data: bytes) | Discarded(data: bytes)

  datatype State = State(
    buffer: bytes,
    drain: Drain,
    lock: Lock,
    readers: map<nat, Reader>,
    seeks: map<nat, nat>,        // Seeks that computed how much to discard
    obtained: bytes,             // history: everything the source delivered
    removed: seq<Removal>)       // history: what left the front of the buffer

  datatype Action =
    | SourceDelivers(chunk: bytes, failed: bool)
    | BufferWrite
    | AfterWrite
    | DrainLock
    | Broadcast
    | DrainUnlock
    | CallRead(r: nat, n: nat)
    | ReaderLock(r: nat)
    | Check(r: nat)
    | Wait(r: nat)
    | Take(r: nat)
    | NotifyRest(r: nat)
    | ReaderUnlock(r: nat)
    | SeekReset
    | SeekMeasure(id: nat, keep: nat)
    | SeekDiscard(id: nat)

  predicate Is(s: State, r: nat, f: Reader -> bool) {
    r in s.readers && f(s.readers[r])
  }

  predicate Can(s: State, a: Action) {
    match a
    case SourceDelivers(_, _) => s.drain.AtSource?
    case BufferWrite => s.drain.HasChunk?
    case AfterWrite => s.drain.Wrote?
    case DrainLock => s.drain.WantsLock? && s.lock.Unlocked?
    case Broadcast => s.drain.Holding?
    case DrainUnlock => s.drain.Signalled?
    case CallRead(r, _) => r !in s.readers
    case ReaderLock(r) => Is(s, r, (x: Reader) => x.WantLock?) && s.lock.Unlocked?
    case Check(r) => Is(s, r, (x: Reader) => x.Checking?)
    case Wait(r) => Is(s, r, (x: Reader) => x.SawEmpty?)
    case Take(r) => Is(s, r, (x: Reader) => x.Ready?)
    case NotifyRest(r) => Is(s, r, (x: Reader) => x.Took?)
    case ReaderUnlock(r) => Is(s, r, (x: Reader) => x.Unlocking?)
    case SeekReset => true
    case SeekMeasure(id, keep) => id !in s.seeks && keep < |s.buffer|
    case SeekDiscard(id) => id in s.seeks
  }

  // Broadcast: everyone in the wait set goes back for the lock.
  function Woken(readers: map<nat, Reader>): map<nat, Reader> {
    map r | r in readers :: if readers[r].Waiting? then WantLock(readers[r].n) else readers[r]
  }

  function Do(s: State, a: Action): State
    requires Can(s, a)
  {
    match a
    case SourceDelivers(chunk, failed) =>
      s.(drain := HasChunk(chunk, failed), obtained := s.obtained + chunk)
    case BufferWrite =>
      s.(drain := Wrote(|s.drain.chunk|, s.drain.failed), buffer := s.buffer + s.drain.chunk)
    case AfterWrite =>
      s.(drain := if s.drain.failed then Exited(s.drain.count)
                  else if |s.buffer| > 0 then WantsLock else AtSource)
    case DrainLock => s.(drain := Holding, lock := ByDrain)
    case Broadcast => s.(drain := Signalled, readers := Woken(s.readers))
    case DrainUnlock => s.(drain := AtSource, lock := Unlocked)
    case CallRead(r, n) => s.(readers := s.readers[r := WantLock(n)])
    case ReaderLock(r) => s.(readers := s.readers[r := Checking(s.readers[r].n)], lock := ByReader(r))
    case Check(r) =>
      s.(readers := s.readers[r := if |s.buffer| < 1 then SawEmpty(s.readers[r].n) else Ready(s.readers[r].n)])
    case Wait(r) => s.(readers := s.readers[r := Waiting(s.readers[r].n)], lock := Unlocked)
    case Take(r) =>
      var k := Min(s.readers[r].n, |s.buffer|);
      s.(readers := s.readers[r := Took], buffer := s.buffer[k..],
         removed := s.removed + [Delivered(r, s.buffer[..k])])
    case NotifyRest(r) =>
      s.(readers := (if |s.buffer| > 0 then Woken(s.readers) else s.readers)[r := Unlocking])
    case ReaderUnlock(r) => s.(readers := s.readers - {r}, lock := Unlocked)
    case SeekReset => s.(buffer := [], removed := s.removed + [Discarded(s.buffer)])
    case SeekMeasure(id, keep) => s.(seeks := s.seeks[id := |s.buffer| - keep])
    case SeekDiscard(id) =>
      var k := Min(s.seeks[id], |s.buffer|);
      s.(seeks := s.seeks - {id}, buffer := s.buffer[k..],
         removed := s.removed + [Discarded(s.buffer[..k])])
  }

  predicate Init(s: State) {
    s == State([], AtSource, Unlocked, map[], map[], [], [])
  }

  ghost predicate StepAt(tr: seq<State>, acts: seq<Action>, i: nat)
    requires |tr| == |acts| + 1 && i < |acts|
  {
    Can(tr[i], acts[i]) && tr[i + 1] == Do(tr[i], acts[i])
  }

  ghost predicate Run(tr: seq<State>, acts: seq<Action>) {
    |tr| == |acts| + 1 && Init(tr[0]) && forall i | 0 <= i < |acts| :: StepAt(tr, acts, i)
  }

  // --- byte conservation ---

  function Bytes(removed: seq<Removal>): bytes {
    if removed == [] then [] else Bytes(removed[..|removed| - 1]) + removed[|removed| - 1].data
  }

  function InHand(d: Drain): bytes {
    if d.HasChunk? then d.chunk else []
  }

  lemma BytesMore(removed: seq<Removal>, x: Removal)
    ensures Bytes(removed + [x]) == Bytes(removed) + x.data
  {
    assert (removed + [x])[..|removed|] == removed;
  }

  ghost predicate Conserved(s: State) {
    s.obtained == Bytes(s.removed) + s.buffer + InHand(s.drain)
  }

  lemma Regroup(out: bytes, taken: bytes, rest: bytes, hand: bytes)
    ensures out + (taken + rest) + hand == (out + taken) + rest + hand
  {}

  // A step that takes x from the front of the buffer.
  lemma TakenStep(s: State, t: State, x: Removal)
    requires Conserved(s) && t.removed == s.removed + [x] && s.buffer == x.data + t.buffer
    requires t.obtained == s.obtained && InHand(t.drain) == InHand(s.drain)
    ensures Conserved(t)
  {
    BytesMore(s.removed, x);
    Regroup(Bytes(s.removed), x.data, t.buffer, InHand(s.drain));
  }

  // A step that adds what Drain has in hand to the end of the buffer.
  lemma WrittenStep(s: State, t: State)
    requires Conserved(s) && t.removed == s.removed && t.obtained == s.obtained
    requires t.buffer == s.buffer + InHand(s.drain) && InHand(t.drain) == []
    ensures Conserved(t)
  {
    assert t.buffer + [] == t.buffer;
    assert Bytes(s.removed) + s.buffer + InHand(s.drain) == Bytes(s.removed) + t.buffer;
  }

  // A step that gets the next chunk from the source.
  lemma ObtainedStep(s: State, t: State)
    requires Conserved(s) && t.removed == s.removed && t.buffer == s.buffer && InHand(s.drain) == []
    requires t.obtained == s.obtained + InHand(t.drain)
    ensures Conserved(t)
  {
    assert Bytes(s.removed) + s.buffer + [] == Bytes(s.removed) + s.buffer;
  }

  lemma ConservedStep(s: State, a: Action)
    requires Can(s, a) && Conserved(s)
    ensures Conserved(Do(s, a))
  {
    match a
    case Take(r) =>
      var k := Min(s.readers[r].n, |s.buffer|);
      TakenStep(s, Do(s, a), Delivered(r, s.buffer[..k]));
    case SeekReset => TakenStep(s, Do(s, a), Discarded(s.buffer));
    case SeekDiscard(id) =>
      var k := Min(s.seeks[id], |s.buffer|);
      TakenStep(s, Do(s, a), Discarded(s.buffer[..k]));
    case SourceDelivers(_, _) => ObtainedStep(s, Do(s, a));
    case BufferWrite => WrittenStep(s, Do(s, a));
    case _ => assert InHand(Do(s, a).drain) == InHand(s.drain) && Do(s, a).buffer == s.buffer;
  }

  // In every run the bytes obtained from the source are, in order, those that
  // left the front of the buffer (each in one Read or one Seek), those in it,
  // and the chunk about to be written.
  lemma {:induction false} BytesConserved(tr: seq<State>, acts: seq<Action>, i: nat)
    requires Run(tr, acts) && i < |tr|
    ensures Conserved(tr[i])
  {
    if i > 0 {
      assert StepAt(tr, acts, i - 1);
      BytesConserved(tr, acts, i - 1);
      ConservedStep(tr[i - 1], acts[i - 1]);
    }
  }

  // --- what a Read and a Seek take ---

  // In this step a Read that asked for n bytes takes data: as many bytes as it
  // asked for, or all there are.
  ghost predicate Takes(s: State, a: Action, t: State, r: nat, n: nat, data: bytes) {
    && a == Take(r) && s.buffer == data + t.buffer && |data| <= n && (|data| < n ==> t.buffer == [])
    && t.removed == s.removed + [Delivered(r, data)]
  }

  lemma TakeStep(s: State, r: nat)
    requires Can(s, Take(r))
    ensures Takes(s, Take(r), Do(s, Take(r)), r, s.readers[r].n, s.buffer[..|s.buffer| - |Do(s, Take(r)).buffer|])
  {}

  // The readers that have not taken anything yet.
  predicate Asking(x: Reader) {
    !x.Took? && !x.Unlocking?
  }

  lemma AskingStep(s: State, a: Action, r: nat)
    requires Can(s, a) && r in Do(s, a).readers && Asking(Do(s, a).readers[r])
    ensures a == CallRead(r, Do(s, a).readers[r].n)
            || (r in s.readers && Asking(s.readers[r]) && s.readers[r].n == Do(s, a).readers[r].n)
  {}

  // A Read asks for what it was called with.
  lemma {:induction false} AskedFor(tr: seq<State>, acts: seq<Action>, i: nat, r: nat) returns (c: nat)
    requires Run(tr, acts) && i < |tr| && r in tr[i].readers && Asking(tr[i].readers[r])
    ensures c < i && acts[c] == CallRead(r, tr[i].readers[r].n)
  {
    assert StepAt(tr, acts, i - 1);
    AskingStep(tr[i - 1], acts[i - 1], r);
    if acts[i - 1] == CallRead(r, tr[i].readers[r].n) {
      c := i - 1;
    } else {
      c := AskedFor(tr, acts, i - 1, r);
    }
  }

  // Removal x was made by a Read called with n in step c, which took it in step m.
  ghost predicate TakenBy(tr: seq<State>, acts: seq<Action>, x: nat, c: nat, m: nat, n: nat)
    requires |tr| == |acts| + 1
  {
    && c < m < |acts| && |tr[m].removed| == x < |tr[m + 1].removed|
    && tr[m + 1].removed[x].Delivered? && acts[c] == CallRead(tr[m + 1].removed[x].reader, n)
    && Takes(tr[m], acts[m], tr[m + 1], tr[m + 1].removed[x].reader, n, tr[m + 1].removed[x].data)
  }

  lemma RemovedGrows(s: State, a: Action)
    requires Can(s, a)
    ensures s.removed <= Do(s, a).removed && |Do(s, a).removed| <= |s.removed| + 1
    ensures Do(s, a).removed == s.removed || a.Take? || a == SeekReset || a.SeekDiscard?
    ensures |Do(s, a).removed| > |s.removed| && Do(s, a).removed[|s.removed|].Delivered? ==> a.Take?
  {}

  // Everything ever delivered was taken by one Read from the front of the buffer:
  // as many bytes as that Read was called with, or all there were.
  lemma {:induction false} DeliveredExplained(tr: seq<State>, acts: seq<Action>, i: nat, x: nat)
    returns (c: nat, m: nat, n: nat)
    requires Run(tr, acts) && i < |tr| && x < |tr[i].removed| && tr[i].removed[x].Delivered?
    ensures m < i && TakenBy(tr, acts, x, c, m, n) && tr[m + 1].removed[x] == tr[i].removed[x]
  {
    assert StepAt(tr, acts, i - 1);
    var s, a := tr[i - 1], acts[i - 1];
    RemovedGrows(s, a);
    if x < |s.removed| {
      c, m, n := DeliveredExplained(tr, acts, i - 1, x);
    } else {
      m := i - 1;
      n := s.readers[a.r].n;
      c := AskedFor(tr, acts, m, a.r);
      TakeStep(s, a.r);
      assert (s.removed + [tr[i].removed[x]])[x] == tr[i].removed[x];
    }
  }

  // Drain goes for its broadcast exactly after a read without error that leaves
  // bytes in the buffer, and ends exactly after one with an error.
  lemma AfterWriteMeans(s: State)
    requires Can(s, AfterWrite)
    ensures Do(s, AfterWrite).drain.WantsLock? <==> !s.drain.failed && s.buffer != []
    ensures Do(s, AfterWrite).drain.Exited? <==> s.drain.failed
    ensures Do(s, AfterWrite).drain.AtSource? <==> !s.drain.failed && s.buffer == []
  {}

  // A Read that leaves bytes wakes everybody who waits.
  lemma RestIsNotified(s: State, r: nat)
    requires Can(s, NotifyRest(r)) && s.buffer != []
    ensures forall q | q in Do(s, NotifyRest(r)).readers :: !Do(s, NotifyRest(r)).readers[q].Waiting?
    ensures forall q | q in s.readers && s.readers[q].Waiting? ::
              Do(s, NotifyRest(r)).readers[q] == WantLock(s.readers[q].n)
  {}

  // From its look at the length until it discards, a Seek is going to discard
  // what was there beyond keep.
  lemma {:induction false} MeasureKept(tr: seq<State>, acts: seq<Action>, i: nat, j: nat, id: nat, keep: nat)
    requires Run(tr, acts) && i < j < |tr| && acts[i] == SeekMeasure(id, keep)
    requires forall m | i < m < j :: acts[m] != SeekDiscard(id)
    ensures id in tr[j].seeks && keep < |tr[i].buffer| && tr[j].seeks[id] == |tr[i].buffer| - keep
  {
    assert StepAt(tr, acts, j - 1);
    if i + 1 < j { MeasureKept(tr, acts, i, j - 1, id, keep); }
  }

  // A Seek that is to keep some bytes discards, when it comes to it, as many from
  // the front as there were beyond those when it looked, or all there are: with
  // nothing in between, the last keep bytes stay.
  lemma SeekDiscards(tr: seq<State>, acts: seq<Action>, i: nat, j: nat, id: nat, keep: nat)
    requires Run(tr, acts) && i < j < |acts| && acts[i] == SeekMeasure(id, keep) && acts[j] == SeekDiscard(id)
    requires forall m | i < m < j :: acts[m] != SeekDiscard(id)
    ensures |tr[i].buffer| > keep
    ensures var d := |tr[i].buffer| - keep;
      tr[j + 1].buffer == if d <= |tr[j].buffer| then tr[j].buffer[d..] else []
    ensures tr[j].buffer == tr[i].buffer ==> tr[j + 1].buffer == tr[i].buffer[|tr[i].buffer| - keep..]
  {
    assert StepAt(tr, acts, j);
    MeasureKept(tr, acts, i, j, id, keep);
  }

  // --- no lost wakeup ---

  predicate HasLock(x: Reader) {
    x.Checking? || x.SawEmpty? || x.Ready? || x.Took? || x.Unlocking?
  }

  ghost predicate LockInv(s: State) {
    && (s.lock.ByDrain? <==> s.drain.Holding? || s.drain.Signalled?)
    && (forall r | r in s.readers && HasLock(s.readers[r]) :: s.lock == ByReader(r))
    && (s.lock.ByReader? ==> s.lock.r in s.readers && HasLock(s.readers[s.lock.r]))
  }

  predicate Blocking(x: Reader) {
    x.SawEmpty? || x.Waiting?
  }

  // Drain is between a buffer write and its broadcast.
  predicate Owes(d: Drain) {
    (d.Wrote? && d.count > 0) || d.WantsLock? || d.Holding?
  }

  // Drain ended with a chunk that came together with the error.
  predicate EndedOwing(d: Drain) {
    d.Exited? && d.count > 0
  }

  ghost predicate WakeupInv(s: State) {
    forall r | r in s.readers && Blocking(s.readers[r]) ::
      s.buffer == [] || Owes(s.drain) || EndedOwing(s.drain)
  }

  lemma LockStep(s: State, a: Action)
    requires Can(s, a) && LockInv(s)
    ensures LockInv(Do(s, a))
  {}

  lemma WakeupStep(s: State, a: Action)
    requires Can(s, a) && LockInv(s) && WakeupInv(s)
    ensures WakeupInv(Do(s, a))
  {}

  lemma {:induction false} WakeupRun(tr: seq<State>, acts: seq<Action>, i: nat)
    requires Run(tr, acts) && i < |tr|
    ensures LockInv(tr[i]) && WakeupInv(tr[i])
  {
    if i > 0 {
      assert StepAt(tr, acts, i - 1);
      WakeupRun(tr, acts, i - 1);
      LockStep(tr[i - 1], acts[i - 1]);
      WakeupStep(tr[i - 1], acts[i - 1]);
    }
  }

  // Whenever a Read is waiting, or is about to, although there are bytes, Drain
  // still has its broadcast to make, unless the source failed on a read that
  // also delivered bytes.
  lemma NoLostWakeup(tr: seq<State>, acts: seq<Action>, i: nat, r: nat)
    requires Run(tr, acts) && i < |tr|
    requires r in tr[i].readers && Blocking(tr[i].readers[r]) && tr[i].buffer != []
    ensures Owes(tr[i].drain) || EndedOwing(tr[i].drain)
  {
    WakeupRun(tr, acts, i);
  }

  predicate OfDrain(a: Action) {
    a.AfterWrite? || a.DrainLock? || a.Broadcast?
  }

  predicate OfReader(a: Action, r: nat) {
    a == Check(r) || a == Wait(r) || a == Take(r) || a == NotifyRest(r) || a == ReaderUnlock(r)
  }

  // A step of Drain, or of the Read that has the lock.
  predicate Towards(s: State, a: Action) {
    OfDrain(a) || (s.lock.ByReader? && OfReader(a, s.lock.r))
  }

  // ... and then Drain or the Read that has the lock can take a step: nothing is
  // deadlocked while a broadcast is owed.
  lemma OwedCanMove(tr: seq<State>, acts: seq<Action>, i: nat) returns (a: Action)
    requires Run(tr, acts) && i < |tr| && Owes(tr[i].drain)
    ensures Can(tr[i], a) && Towards(tr[i], a) && (tr[i].drain.Wrote? ==> a == AfterWrite)
  {
    WakeupRun(tr, acts, i);
    var s := tr[i];
    if s.drain.Wrote? {
      a := AfterWrite;
    } else if s.drain.Holding? {
      a := Broadcast;
    } else if s.lock.Unlocked? {
      a := DrainLock;
    } else {
      var r := s.lock.r;
      var x := s.readers[r];
      a := if x.Checking? then Check(r) else if x.SawEmpty? then Wait(r) else if x.Ready? then Take(r)
           else if x.Took? then NotifyRest(r) else ReaderUnlock(r);
    }
  }

  // How many such steps are left until the broadcast is made.
  function ReaderDistance(x: Reader): nat {
    match x
    case Checking(_) => 4
    case Ready(_) => 3
    case Took => 2
    case SawEmpty(_) => 1
    case Unlocking => 1
    case _ => 0
  }

  function HolderDistance(s: State): nat {
    if s.lock.ByReader? && s.lock.r in s.readers then ReaderDistance(s.readers[s.lock.r]) else 0
  }

  function Distance(s: State): nat {
    match s.drain
    case Wrote(_, _) => 3 + HolderDistance(s)
    case WantsLock => 2 + HolderDistance(s)
    case Holding => 1
    case _ => 0
  }

  lemma NearerStep(s: State, a: Action)
    requires Can(s, a) && LockInv(s) && Owes(s.drain) && Towards(s, a)
    requires s.drain.Wrote? ==> a == AfterWrite && s.buffer != [] && !s.drain.failed
    ensures a == Broadcast || (Owes(Do(s, a).drain) && !Do(s, a).drain.Wrote? && Distance(Do(s, a)) < Distance(s))
  {}

  // The steps from moment i on are all towards the broadcast.
  ghost predicate AllTowards(tr: seq<State>, acts: seq<Action>, i: nat)
    requires |tr| == |acts| + 1
  {
    forall m | i <= m < |acts| :: Towards(tr[m], acts[m])
  }

  // From any moment at which a broadcast is owed and there are bytes, at most
  // seven steps of Drain and of the Read that has the lock make the broadcast,
  // and then no Read is waiting any more or about to.
  lemma {:induction false} OwedIsPaid(tr: seq<State>, acts: seq<Action>)
    returns (tr': seq<State>, acts': seq<Action>)
    requires Run(tr, acts) && Owes(tr[|acts|].drain)
    requires tr[|acts|].drain.Wrote? ==> tr[|acts|].buffer != [] && !tr[|acts|].drain.failed
    ensures Run(tr', acts') && tr <= tr' && acts <= acts' && AllTowards(tr', acts', |acts|)
    ensures |acts| < |acts'| <= |acts| + Distance(tr[|acts|]) <= |acts| + 7
    ensures acts'[|acts'| - 1] == Broadcast
    ensures forall r | r in tr'[|acts'|].readers :: !Blocking(tr'[|acts'|].readers[r])
    decreases Distance(tr[|acts|])
  {
    var s := tr[|acts|];
    WakeupRun(tr, acts, |acts|);
    var a := OwedCanMove(tr, acts, |acts|);
    NearerStep(s, a);
    tr', acts' := Grow(tr, acts, a);
    if a != Broadcast {
      var mid, steps := tr', acts';
      tr', acts' := OwedIsPaid(mid, steps);
      forall m | |acts| <= m < |acts'| ensures Towards(tr'[m], acts'[m]) {
        if m == |acts| { assert tr'[m] == mid[m] == s && acts'[m] == steps[m]; }
      }
    }
  }

  // --- what the exception does ---

  // Drain is gone and everybody waits.
  ghost predicate AllStuck(s: State) {
    s.drain.Exited? && forall r | r in s.readers :: s.readers[r].Waiting?
  }

  lemma StuckStep(s: State, a: Action)
    requires Can(s, a) && AllStuck(s) && !a.CallRead?
    ensures AllStuck(Do(s, a)) && Do(s, a).readers == s.readers
  {}

  // Nobody who waits then is woken again, unless another Read is called.
  lemma {:induction false} StuckForEver(tr: seq<State>, acts: seq<Action>, i: nat, j: nat)
    requires Run(tr, acts) && i <= j < |tr| && AllStuck(tr[i])
    requires forall m | i <= m < j :: !acts[m].CallRead?
    ensures AllStuck(tr[j]) && tr[j].readers == tr[i].readers
  {
    if i < j {
      assert StepAt(tr, acts, j - 1);
      StuckForEver(tr, acts, i, j - 1);
      StuckStep(tr[j - 1], acts[j - 1]);
    }
  }

  lemma Grow(tr: seq<State>, acts: seq<Action>, a: Action)
    returns (tr': seq<State>, acts': seq<Action>)
    requires Run(tr, acts) && Can(tr[|acts|], a)
    ensures Run(tr', acts') && acts' == acts + [a] && tr <= tr'
    ensures tr'[|acts'|] == Do(tr[|acts|], a)
  {
    tr', acts' := tr + [Do(tr[|acts|], a)], acts + [a];
    forall i | 0 <= i < |acts'| ensures StepAt(tr', acts', i) {
      if i < |acts| { assert StepAt(tr, acts, i); }
    }
  }

  // Any last chunk that arrives together with the error can strand a Read with
  // all its bytes in the buffer.
  lemma LastChunkStrands(chunk: bytes, n: nat) returns (tr: seq<State>, acts: seq<Action>)
    requires chunk != []
    ensures Run(tr, acts) && AllStuck(tr[|acts|])
    ensures tr[|acts|].readers == map[0 := Waiting(n)] && tr[|acts|].buffer == chunk
  {
    tr, acts := [State([], AtSource, Unlocked, map[], map[], [], [])], [];
    tr, acts := Grow(tr, acts, CallRead(0, n));
    tr, acts := Grow(tr, acts, ReaderLock(0));
    tr, acts := Grow(tr, acts, Check(0));
    tr, acts := Grow(tr, acts, Wait(0));
    tr, acts := Grow(tr, acts, SourceDelivers(chunk, true));
    tr, acts := Grow(tr, acts, BufferWrite);
    tr, acts := Grow(tr, acts, AfterWrite);
  }

  // --- a Read that ends with io.EOF although the stream goes on ---

  // Reader r is past its wait and about to look into an empty buffer.
  predicate GetsEof(s: State, r: nat) {
    Is(s, r, (x: Reader) => x.Ready? && x.n > 0) && s.buffer == []
  }

  ghost predicate ReadyThroughout(tr: seq<State>, r: nat, i: nat, j: nat)
    requires j < |tr|
  {
    forall m | i <= m <= j :: Is(tr[m], r, (x: Reader) => x.Ready?)
  }

  predicate Seeks(a: Action) {
    a.SeekReset? || a.SeekDiscard?
  }

  // Step m is a Seek that emptied the buffer, and nothing was written to it after.
  ghost predicate EmptiedBy(tr: seq<State>, acts: seq<Action>, m: nat, j: nat)
    requires j <= |acts| && |tr| == |acts| + 1
  {
    && m < j && Seeks(acts[m]) && tr[m + 1].buffer == []
    && forall q | m < q < j && acts[q].BufferWrite? :: InHand(tr[q].drain) == []
  }

  // While a Read is past its wait, only Seeks take bytes away and only Drain adds any.
  lemma ReadyStep(s: State, a: Action, r: nat)
    requires Can(s, a) && LockInv(s) && Is(s, r, (x: Reader) => x.Ready?) && Is(Do(s, a), r, (x: Reader) => x.Ready?)
    ensures Do(s, a).buffer == if a.BufferWrite? then s.buffer + InHand(s.drain)
                               else if Seeks(a) then Do(s, a).buffer else s.buffer
    ensures s.buffer == [] && Seeks(a) ==> Do(s, a).buffer == []
  {}

  lemma EmptiedNext(tr: seq<State>, acts: seq<Action>, m: nat, j: nat)
    requires |tr| == |acts| + 1 && j < |acts|
    ensures EmptiedBy(tr, acts, m, j + 1) <==>
            (m == j && Seeks(acts[j]) && tr[j + 1].buffer == [])
            || (EmptiedBy(tr, acts, m, j) && (acts[j].BufferWrite? ==> InHand(tr[j].drain) == []))
  {}

  // When a Read that ended its wait with bytes in the buffer finds none: exactly
  // when a Seek emptied the buffer in between and Drain wrote nothing since.
  lemma {:induction false} EofExactly(tr: seq<State>, acts: seq<Action>, i: nat, j: nat, r: nat)
    requires Run(tr, acts) && i <= j < |tr| && ReadyThroughout(tr, r, i, j) && tr[i].buffer != []
    ensures tr[j].buffer == [] <==> exists m: nat :: i <= m && EmptiedBy(tr, acts, m, j)
  {
    if i < j {
      var s, a := tr[j - 1], acts[j - 1];
      assert StepAt(tr, acts, j - 1);
      EofExactly(tr, acts, i, j - 1, r);
      WakeupRun(tr, acts, j - 1);
      ReadyStep(s, a, r);
      if tr[j].buffer == [] {
        var m := j - 1;
        if s.buffer == [] { m :| i <= m && EmptiedBy(tr, acts, m, j - 1); }
        EmptiedNext(tr, acts, m, j - 1);
      }
      if m: nat :| i <= m && EmptiedBy(tr, acts, m, j) { EmptiedNext(tr, acts, m, j - 1); }
    }
  }

  // ... and this happens, although the source has not failed.
  lemma EofReachable(chunk: bytes, n: nat) returns (tr: seq<State>, acts: seq<Action>)
    requires chunk != [] && n > 0
    ensures Run(tr, acts) && GetsEof(tr[|acts|], 0) && tr[|acts|].readers == map[0 := Ready(n)]
    ensures tr[|acts|].drain == Wrote(|chunk|, false) && tr[|acts|].obtained == chunk
  {
    tr, acts := [State([], AtSource, Unlocked, map[], map[], [], [])], [];
    tr, acts := Grow(tr, acts, SourceDelivers(chunk, false));
    tr, acts := Grow(tr, acts, BufferWrite);
    tr, acts := Grow(tr, acts, CallRead(0, n));
    tr, acts := Grow(tr, acts, ReaderLock(0));
    tr, acts := Grow(tr, acts, Check(0));
    tr, acts := Grow(tr, acts, SeekReset);
  }
}
