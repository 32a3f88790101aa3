// The whole tailing service: the tracker of module Store, any number of tailer
// goroutines, the goroutines waiting for containers to stop, the log files, and
// a process that may die and restart between any two steps.
module Apptail {
  import opened Options
  import opened TrackerSpec
  import opened FileLogs
  import Store

  // Where a tailFile goroutine is.
  datatype Pc =
    | Starting
    | HasEntry                              // IsChildNodeInitialized said yes
    | NoEntry                               // ... said no
    | At(offset: int)                       // will open the file at this saved offset
    | Limited(limit: nat)                   // will open it this far before its end
    | Opened(ok: bool)                      // next: InitializeChildNode, then read or give up
    | Idle                                  // in the select of readFromTail
    | Received
    | Told(offset: int)                     // has the offset from Tell; Update begins
    | AtNode(offset: int, node: nat)        // Update found the node of the container
    | AtChild(offset: int, node: nat)       // ... and saw that the file is in it
    | Updated                               // Update is done; the line is published next
    | Ended

  // pos: the number of the line received next, or being handled.
  // whole: false while that line is only the rest of a line cut by the seek.
  datatype Tailer = Tailer(key: string, file: string, pos: nat, whole: bool, pc: Pc)

  // A call of BlockUntilContainerStops followed by Remove.  Every call makes a
  // channel of its own, known by the number of the call.
  datatype Wait = Fresh | Listed | Refused | Released | Removed

  datatype Call = Call(key: string, at: Wait)

  datatype Note = Added(call: nat) | Stopped(key: string)

  datatype Listener = Listener(
    calls: seq<Call>,
    waiters: map<string, nat>,
    closed: seq<nat>,           // channels in the order in which they were closed
    notes: seq<Note>)           // history: waiters added, stop events handled

  datatype System = System(
    store: Store.State,
    logs: map<(string, string), FileLog>,
    tailers: map<nat, Tailer>,
    listener: Listener,
    ahead: nat,                 // Tell is at most this many lines past the line just received
    sizeLimit: nat)             // read_limit in bytes

  datatype Action =
    | Append(key: string, file: string, text: string)
    | Inner(act: Store.Action)            // loading, committing, cleaning up
    | Die
    | TailCall(key: string)               // Tail registers the container
    | Spawn(t: nat, key: string, file: string)
    | CheckEntry(t: nat)
    | ReadEntry(t: nat)
    | NilPanic(t: nat)                    // GetFileCachedOffset finds the node but no box
    | OpenAt(t: nat, line: nat)
    | Stat(t: nat)
    | OpenEnd(t: nat, line: nat)
    | OpenFails(t: nat)
    | InitEntry(t: nat)
    | Receive(t: nat)
    | Tell(t: nat, line: nat)
    | TellFails(t: nat)
    | FindNode(t: nat)
    | FindChild(t: nat)
    | StoreOffset(t: nat)
    | Publish(t: nat)
    | Quit(t: nat)                        // stop channel, end of the tail, failed stat or open
    | Block(key: string)
    | AddWaiter(call: nat)
    | DockerEvent(key: string, stops: bool)
    | Wake(call: nat)
    | RemoveKey(call: nat)

  predicate IsInner(act: Store.Action) {
    match act
    case Register(_) => false
    case InitChild(_, _, _) => false
    case StoreBox(_, _, _) => false
    case Delete(_) => false
    case Crash => false
    case _ => true
  }

  predicate PcIs(s: System, t: nat, f: Pc -> bool) {
    t in s.tailers && (s.tailers[t].key, s.tailers[t].file) in s.logs && f(s.tailers[t].pc)
  }

  function LogOf(s: System, t: nat): FileLog
    requires t in s.tailers && (s.tailers[t].key, s.tailers[t].file) in s.logs
  {
    s.logs[(s.tailers[t].key, s.tailers[t].file)]
  }

  predicate HasChild(s: System, t: nat)
    requires t in s.tailers
  {
    s.tailers[t].key in s.store.cache && s.tailers[t].file in Store.Kids(s.store, s.tailers[t].key)
  }

  predicate CallIs(s: System, c: nat, at: Wait) {
    c < |s.listener.calls| && s.listener.calls[c].at == at
  }

  // The condition of a step, apart from that of its effect on the store.
  predicate Guard(s: System, a: Action) {
    match a
    case Append(key, file, line) => (key, file) in s.logs && line != ""
    case Inner(act) => IsInner(act)
    case Die => true
    case TailCall(_) => true
    case Spawn(t, key, file) => t !in s.tailers && (key, file) in s.logs && Store.Running(s.store)
    case CheckEntry(t) => PcIs(s, t, (pc: Pc) => pc.Starting?) && s.store.mux.Free?
    case ReadEntry(t) =>
      PcIs(s, t, (pc: Pc) => pc.HasEntry?) && s.store.mux.Free?
      && (s.tailers[t].key in s.store.cache ==> HasChild(s, t))
    case NilPanic(t) =>
      PcIs(s, t, (pc: Pc) => pc.HasEntry?) && s.store.mux.Free?
      && s.tailers[t].key in s.store.cache && !HasChild(s, t)
    case OpenAt(t, line) =>
      PcIs(s, t, (pc: Pc) => pc.At?)
      && line <= |LogOf(s, t).lines| && Bytes(LogOf(s, t).lines, line) == s.tailers[t].pc.offset
    case Stat(t) => PcIs(s, t, (pc: Pc) => pc.NoEntry?)
    case OpenEnd(t, line) =>
      PcIs(s, t, (pc: Pc) => pc.Limited?)
      && s.tailers[t].pc.limit <= Size(LogOf(s, t))
      && Contains(LogOf(s, t).lines, line, Size(LogOf(s, t)) - s.tailers[t].pc.limit)
    case OpenFails(t) => PcIs(s, t, (pc: Pc) => pc.Limited?)
    case InitEntry(t) => PcIs(s, t, (pc: Pc) => pc.Opened?)
    case Receive(t) => PcIs(s, t, (pc: Pc) => pc.Idle?) && s.tailers[t].pos < |LogOf(s, t).lines|
    case Tell(t, line) =>
      PcIs(s, t, (pc: Pc) => pc.Received?)
      && line <= |LogOf(s, t).lines| && line <= s.tailers[t].pos + 1 + s.ahead
    case TellFails(t) => PcIs(s, t, (pc: Pc) => pc.Received?)
    case FindNode(t) => PcIs(s, t, (pc: Pc) => pc.Told?)
    case FindChild(t) => PcIs(s, t, (pc: Pc) => pc.AtNode?)
    case StoreOffset(t) => PcIs(s, t, (pc: Pc) => pc.AtChild?)
    case Publish(t) => PcIs(s, t, (pc: Pc) => pc.Updated?)
    case Quit(t) => PcIs(s, t, (pc: Pc) => pc.NoEntry? || pc.At? || pc.Idle?)
    case Block(_) => Store.Running(s.store)
    case AddWaiter(c) => CallIs(s, c, Fresh)
    case DockerEvent(_, _) => true
    case Wake(c) => CallIs(s, c, Listed) && c in s.listener.closed
    case RemoveKey(c) => CallIs(s, c, Released)
  }

  // What the step does to the tracker.
  function StoreAct(s: System, a: Action): Option<Store.Action>
    requires Guard(s, a)
  {
    match a
    case Inner(act) => Some(act)
    case Die => Some(Store.Crash)
    case NilPanic(_) => Some(Store.Crash)
    case TailCall(key) => Some(Store.Register(key))
    case InitEntry(t) => Some(Store.InitChild(s.tailers[t].key, s.tailers[t].file, INITIAL_OFFSET))
    case StoreOffset(t) =>
      var x := s.tailers[t];
      Some(Store.StoreBox(x.pc.node, x.file, x.pc.offset))
    case RemoveKey(c) => Some(Store.Delete(s.listener.calls[c].key))
    case _ => None
  }

  predicate Can(s: System, a: Action) {
    Guard(s, a) && (StoreAct(s, a).Some? ==> Store.Can(s.store, StoreAct(s, a).value))
  }

  function StoreAfter(s: System, a: Action): Store.State
    requires Can(s, a)
  {
    if StoreAct(s, a).Some? then Store.Do(s.store, StoreAct(s, a).value) else s.store
  }

  // The file a step deals with, and what it makes of that file's log.
  function LogAct(s: System, a: Action): Option<((string, string), FileLog)>
    requires Guard(s, a)
  {
    match a
    case Append(key, file, line) => Some(((key, file), Appended(s.logs[(key, file)], line)))
    case OpenAt(t, line) =>
      Some(((s.tailers[t].key, s.tailers[t].file), Resumed(LogOf(s, t), line)))
    case OpenEnd(t, line) =>
      Some(((s.tailers[t].key, s.tailers[t].file), Began(LogOf(s, t), FirstWhole(s, t, line))))
    case Publish(t) =>
      Some(((s.tailers[t].key, s.tailers[t].file),
                  PublishedLine(LogOf(s, t), s.tailers[t].pos, s.tailers[t].whole)))
    case _ => None
  }

  // Opening `limit` bytes before the end lands in `line`: is it cut?
  predicate Cut(s: System, t: nat, line: nat)
    requires Guard(s, OpenEnd(t, line))
  {
    Bytes(LogOf(s, t).lines, line) < Size(LogOf(s, t)) - s.tailers[t].pc.limit
  }

  function FirstWhole(s: System, t: nat, line: nat): nat
    requires Guard(s, OpenEnd(t, line))
  {
    if Cut(s, t, line) then line + 1 else line
  }

  function LogsAfter(s: System, a: Action): map<(string, string), FileLog>
    requires Guard(s, a)
  {
    if LogAct(s, a).Some? then s.logs[LogAct(s, a).value.0 := LogAct(s, a).value.1] else s.logs
  }

  function To(s: System, t: nat, pc: Pc): map<nat, Tailer>
    requires t in s.tailers
  {
    s.tailers[t := s.tailers[t].(pc := pc)]
  }

  function TailersAfter(s: System, a: Action): map<nat, Tailer>
    requires Guard(s, a)
  {
    match a
    case Die => map[]
    case NilPanic(_) => map[]
    case Spawn(t, key, file) => s.tailers[t := Tailer(key, file, 0, true, Starting)]
    case CheckEntry(t) => To(s, t, if HasChild(s, t) then HasEntry else NoEntry)
    case ReadEntry(t) => To(s, t, At(SavedOffset(s, t)))
    case OpenAt(t, line) => s.tailers[t := s.tailers[t].(pc := Idle, pos := line, whole := true)]
    case Stat(t) => To(s, t, Limited(ReadLimit(Size(LogOf(s, t)), s.sizeLimit)))
    case OpenEnd(t, line) =>
      s.tailers[t := s.tailers[t].(pc := Opened(true), pos := line, whole := !Cut(s, t, line))]
    case OpenFails(t) => To(s, t, Opened(false))
    case InitEntry(t) => To(s, t, if s.tailers[t].pc.ok then Idle else Ended)
    case Receive(t) => To(s, t, Received)
    case Tell(t, line) => To(s, t, Told(Bytes(LogOf(s, t).lines, line)))
    case TellFails(t) => To(s, t, Told(0))
    case FindNode(t) =>
      var x := s.tailers[t];
      To(s, t, if x.key in s.store.cache then AtNode(x.pc.offset, s.store.cache[x.key]) else Updated)
    case FindChild(t) =>
      var x := s.tailers[t];
      To(s, t, if x.pc.node < |s.store.nodes| && x.file in s.store.nodes[x.pc.node].kids
               then AtChild(x.pc.offset, x.pc.node) else Updated)
    case StoreOffset(t) => To(s, t, Updated)
    case Publish(t) =>
      s.tailers[t := s.tailers[t].(pc := Idle, pos := s.tailers[t].pos + 1, whole := true)]
    case Quit(t) => To(s, t, Ended)
    case _ => s.tailers
  }

  // The value GetFileCachedOffset returns (0 for an unknown container).
  function SavedOffset(s: System, t: nat): int
    requires t in s.tailers
  {
    var x := s.tailers[t];
    if HasChild(s, t) then Store.Value(s.store, Store.Kids(s.store, x.key)[x.file]) else 0
  }

  function ListenerAfter(s: System, a: Action): Listener
    requires Guard(s, a)
  {
    var l := s.listener;
    match a
    case Die => Listener([], map[], [], [])
    case NilPanic(_) => Listener([], map[], [], [])
    case Block(key) => l.(calls := l.calls + [Call(key, Fresh)])
    case AddWaiter(c) =>
      if l.calls[c].key in l.waiters then l.(calls := l.calls[c := l.calls[c].(at := Refused)])
      else l.(calls := l.calls[c := l.calls[c].(at := Listed)],
              waiters := l.waiters[l.calls[c].key := c], notes := l.notes + [Added(c)])
    case DockerEvent(key, stops) =>
      if !stops then l
      else if key in l.waiters then
        l.(closed := l.closed + [l.waiters[key]], waiters := l.waiters - {key},
           notes := l.notes + [Stopped(key)])
      else l.(notes := l.notes + [Stopped(key)])
    case Wake(c) => l.(calls := l.calls[c := l.calls[c].(at := Released)])
    case RemoveKey(c) => l.(calls := l.calls[c := l.calls[c].(at := Removed)])
    case _ => l
  }

  function Do(s: System, a: Action): System
    requires Can(s, a)
  {
    s.(store := StoreAfter(s, a), logs := LogsAfter(s, a), tailers := TailersAfter(s, a),
       listener := ListenerAfter(s, a))
  }

  // A first start: nothing tailed yet, no usable state file.
  predicate Init(s: System) {
    && Store.Init(s.store) && !s.store.disk.Holds?
    && s.tailers == map[] && s.listener == Listener([], map[], [], [])
    && forall p | p in s.logs ::
         s.logs[p] == FileLog(s.logs[p].lines, [], 0, [], [], 0)
         && forall k | 0 <= k < |s.logs[p].lines| :: s.logs[p].lines[k] != ""
  }

  ghost predicate StepAt(tr: seq<System>, acts: seq<Action>, i: nat)
    requires |tr| == |acts| + 1 && i < |acts|
  {
    Can(tr[i], acts[i]) && tr[i + 1] == Do(tr[i], acts[i])
  }

  ghost predicate Run(tr: seq<System>, acts: seq<Action>) {
    |tr| == |acts| + 1 && forall i | 0 <= i < |acts| :: StepAt(tr, acts, i)
  }

  lemma {:induction false} StoreInvRun(tr: seq<System>, acts: seq<Action>, i: nat)
    requires Run(tr, acts) && Store.Inv(tr[0].store) && i < |tr|
    ensures Store.Inv(tr[i].store)
  {
    if i > 0 {
      assert StepAt(tr, acts, i - 1);
      StoreInvRun(tr, acts, i - 1);
      var s, a := tr[i - 1], acts[i - 1];
      if StoreAct(s, a).Some? { Store.InvStep(s.store, StoreAct(s, a).value); }
    }
  }

  // The steps that a run makes in the tracker, up to moment j.
  function StoreActs(tr: seq<System>, acts: seq<Action>, j: nat): seq<Store.Action>
    requires |tr| == |acts| + 1 && j <= |acts|
  {
    if j == 0 then []
    else if Guard(tr[j - 1], acts[j - 1]) && StoreAct(tr[j - 1], acts[j - 1]).Some?
    then StoreActs(tr, acts, j - 1) + [StoreAct(tr[j - 1], acts[j - 1]).value]
    else StoreActs(tr, acts, j - 1)
  }

  // What the tracker goes through in a run of the whole system is a run of the
  // tracker, so all that holds of those holds here.
  lemma {:induction false} StoreRunOf(tr: seq<System>, acts: seq<Action>, j: nat) returns (str: seq<Store.State>)
    requires Run(tr, acts) && j <= |acts|
    ensures Store.Run(str, StoreActs(tr, acts, j))
    ensures str[0] == tr[0].store && str[|str| - 1] == tr[j].store
  {
    if j == 0 {
      str := [tr[0].store];
    } else {
      assert StepAt(tr, acts, j - 1);
      var front := StoreRunOf(tr, acts, j - 1);
      var s, a := tr[j - 1], acts[j - 1];
      if StoreAct(s, a).Some? {
        var before, after := StoreActs(tr, acts, j - 1), StoreActs(tr, acts, j);
        str := front + [tr[j].store];
        forall i | 0 <= i < |after| ensures Store.StepAt(str, after, i) {
          if i < |before| { assert Store.StepAt(front, before, i); }
        }
      } else {
        str := front;
      }
    }
  }
}
