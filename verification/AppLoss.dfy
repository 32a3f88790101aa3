// How much can be lost: over any number of crashes, with any number of tailers
// and commits in progress.
module AppLoss {
  import opened Options
  import opened FileLogs
  import opened StoreSnapshots
  import Store
  import StoreHeap
  import opened Apptail

  ghost predicate SafeFor(s: System, key: string, file: string, v: int) {
    (key, file) in s.logs ==> Safe(s.logs[(key, file)], s.ahead, v)
  }

  ghost function SafeOffsets(s: System): iset<(string, string, int)> {
    iset key, file, v | SafeFor(s, key, file, v) :: (key, file, v)
  }

  ghost predicate Reading(x: Tailer, log: FileLog) {
    x.pos <= |log.lines| && x.pos <= log.settled && (!x.whole ==> x.pos < log.settled)
  }

  ghost predicate PcOk(x: Tailer, log: FileLog, ahead: nat, st: Store.State) {
    match x.pc
    case At(offset) => Safe(log, ahead, offset)
    case Limited(limit) => limit <= Size(log)
    case Opened(ok) => ok ==> Reading(x, log)
    case Idle => Reading(x, log)
    case Received => Reading(x, log) && x.pos < |log.lines|
    case Told(offset) => Reading(x, log) && x.pos < |log.lines| && Safe(log, ahead, offset)
    case AtNode(offset, n) =>
      Reading(x, log) && x.pos < |log.lines| && Safe(log, ahead, offset)
      && n < |st.nodes| && st.nodes[n].key == x.key
    case AtChild(offset, n) =>
      Reading(x, log) && x.pos < |log.lines| && Safe(log, ahead, offset)
      && n < |st.nodes| && st.nodes[n].key == x.key && x.file in st.nodes[n].kids
    case Updated => Reading(x, log) && x.pos < |log.lines|
    case _ => true
  }

  ghost predicate TailerOk(s: System, t: nat)
    requires t in s.tailers
  {
    var x := s.tailers[t];
    Store.Running(s.store) && (x.key, x.file) in s.logs
    && PcOk(x, s.logs[(x.key, x.file)], s.ahead, s.store)
  }

  ghost predicate LossInv(s: System) {
    && Store.Inv(s.store)
    && (forall p | p in s.logs :: Accounted(s.logs[p], s.ahead))
    && OffsetsAll(s.store, SafeOffsets(s))
    && (forall t | t in s.tailers :: TailerOk(s, t))
  }

  // --- the files ---

  ghost predicate LogGood(log: FileLog, next: FileLog, ahead: nat) {
    Accounted(next, ahead) && Grows(log, next)
  }

  lemma LogActGood(s: System, a: Action)
    requires LossInv(s) && Can(s, a) && LogAct(s, a).Some?
    ensures LogAct(s, a).value.0 in s.logs
    ensures LogGood(s.logs[LogAct(s, a).value.0], LogAct(s, a).value.1, s.ahead)
  {
    match a
    case Append(key, file, text) =>
      AppendedKeeps(s.logs[(key, file)], text, s.ahead);
    case OpenAt(t, line) =>
      assert TailerOk(s, t);
      ResumedKeeps(LogOf(s, t), s.tailers[t].pc.offset, line, s.ahead);
    case OpenEnd(t, line) =>
      BeganKeeps(LogOf(s, t), FirstWhole(s, t, line), s.ahead);
    case Publish(t) =>
      assert TailerOk(s, t);
      PublishedKeeps(LogOf(s, t), s.tailers[t].pos, s.tailers[t].whole, s.ahead);
    case _ =>
  }

  lemma LogsGood(s: System, a: Action, p: (string, string))
    requires LossInv(s) && Can(s, a) && p in s.logs
    ensures p in LogsAfter(s, a) && LogGood(s.logs[p], LogsAfter(s, a)[p], s.ahead)
    ensures LogsAfter(s, a).Keys == s.logs.Keys
  {
    if LogAct(s, a).Some? { LogActGood(s, a); }
  }

  // --- the offsets ---

  lemma SafeLater(s: System, a: Action, key: string, file: string, v: int)
    requires LossInv(s) && Can(s, a) && SafeFor(s, key, file, v)
    ensures SafeFor(Do(s, a), key, file, v)
  {
    if (key, file) in s.logs {
      LogsGood(s, a, (key, file));
      SafeGrows(s.logs[(key, file)], LogsAfter(s, a)[(key, file)], s.ahead, v);
    } else if LogAct(s, a).Some? {
      LogActGood(s, a);
    }
  }

  lemma OffsetsMono(st: Store.State, good: iset<(string, string, int)>, more: iset<(string, string, int)>)
    requires OffsetsAll(st, good) && good <= more
    ensures OffsetsAll(st, more)
  {}

  lemma PutsSafe(s: System, a: Action)
    requires LossInv(s) && Can(s, a) && StoreAct(s, a).Some?
    ensures PutsGood(s.store, StoreAct(s, a).value, SafeOffsets(s))
  {
    match a
    case StoreOffset(t) => assert TailerOk(s, t);
    case InitEntry(t) => ZeroSafe(LogOf(s, t), s.ahead);
    case _ =>
  }

  lemma OffsetsGood(s: System, a: Action)
    requires LossInv(s) && Can(s, a)
    ensures OffsetsAll(Do(s, a).store, SafeOffsets(Do(s, a)))
  {
    if StoreAct(s, a).Some? {
      PutsSafe(s, a);
      OffsetsStep(s.store, StoreAct(s, a).value, SafeOffsets(s));
    }
    forall key, file, v | SafeFor(s, key, file, v) ensures SafeFor(Do(s, a), key, file, v) {
      SafeLater(s, a, key, file, v);
    }
    OffsetsMono(Do(s, a).store, SafeOffsets(s), SafeOffsets(Do(s, a)));
  }

  // --- the tailers ---

  lemma RunningStays(s: System, a: Action)
    requires Can(s, a) && Store.Running(s.store) && !a.Die? && !a.NilPanic?
    ensures Store.Running(StoreAfter(s, a))
  {}

  // A tailer that does not move stays fine whatever the others do.
  lemma TailerStays(s: System, a: Action, t: nat)
    requires LossInv(s) && Can(s, a) && t in s.tailers
    requires t in TailersAfter(s, a) && TailersAfter(s, a)[t] == s.tailers[t]
    ensures TailerOk(Do(s, a), t)
  {
    assert TailerOk(s, t);
    var x := s.tailers[t];
    var log := s.logs[(x.key, x.file)];
    LogsGood(s, a, (x.key, x.file));
    var next := LogsAfter(s, a)[(x.key, x.file)];
    RunningStays(s, a);
    PcStays(x, log, next, s.ahead, s.store);
    if (x.pc.AtNode? || x.pc.AtChild?) && StoreAct(s, a).Some? {
      StoreHeap.NodeKeptStep(s.store, StoreAct(s, a).value, x.pc.node);
    }
  }

  lemma SizeGrows(log: FileLog, next: FileLog)
    requires Grows(log, next) && forall k | 0 <= k < |next.lines| :: next.lines[k] != ""
    ensures Size(log) <= Size(next)
  {
    BytesPrefix(log.lines, next.lines, |log.lines|);
    BytesMonotone(next.lines, |log.lines|, |next.lines|);
  }

  lemma PcStays(x: Tailer, log: FileLog, next: FileLog, ahead: nat, st: Store.State)
    requires PcOk(x, log, ahead, st) && LogGood(log, next, ahead)
    ensures PcOk(x, next, ahead, st)
  {
    match x.pc
    case At(offset) => SafeGrows(log, next, ahead, offset);
    case Limited(limit) => SizeGrows(log, next);
    case Told(offset) => SafeGrows(log, next, ahead, offset);
    case AtNode(offset, n) => SafeGrows(log, next, ahead, offset);
    case AtChild(offset, n) => SafeGrows(log, next, ahead, offset);
    case _ =>
  }

  // The tailer a step belongs to.
  function Actor(a: Action): Option<nat> {
    match a
    case Spawn(t, _, _) => Some(t)
    case CheckEntry(t) => Some(t)
    case ReadEntry(t) => Some(t)
    case OpenAt(t, _) => Some(t)
    case Stat(t) => Some(t)
    case OpenEnd(t, _) => Some(t)
    case OpenFails(t) => Some(t)
    case InitEntry(t) => Some(t)
    case Receive(t) => Some(t)
    case Tell(t, _) => Some(t)
    case TellFails(t) => Some(t)
    case FindNode(t) => Some(t)
    case FindChild(t) => Some(t)
    case StoreOffset(t) => Some(t)
    case Publish(t) => Some(t)
    case Quit(t) => Some(t)
    case _ => None
  }

  // Only its own steps move a tailer.
  lemma OnlyActorMoves(s: System, a: Action, t: nat)
    requires Can(s, a) && t in TailersAfter(s, a) && Actor(a) != Some(t)
    ensures t in s.tailers && TailersAfter(s, a)[t] == s.tailers[t]
  {}

  lemma SavedIsSafe(s: System, t: nat)
    requires LossInv(s) && t in s.tailers && TailerOk(s, t)
    ensures Safe(s.logs[(s.tailers[t].key, s.tailers[t].file)], s.ahead, SavedOffset(s, t))
  {
    var x := s.tailers[t];
    var log := s.logs[(x.key, x.file)];
    ZeroSafe(log, s.ahead);
    if HasChild(s, t) {
      assert (s.store.nodes[s.store.cache[x.key]].key, x.file, SavedOffset(s, t)) in SafeOffsets(s);
      assert SafeFor(s, x.key, x.file, SavedOffset(s, t));
    }
  }

  lemma TellIsSafe(s: System, t: nat, line: nat)
    requires LossInv(s) && Can(s, Tell(t, line))
    ensures Safe(LogOf(s, t), s.ahead, Bytes(LogOf(s, t).lines, line))
  {
    assert TailerOk(s, t);
    assert SafeAt(LogOf(s, t), s.ahead, Bytes(LogOf(s, t).lines, line), line);
  }

  // A step of tailFile before its loop.
  predicate IsOpening(a: Action) {
    a.Spawn? || a.CheckEntry? || a.ReadEntry? || a.OpenAt? || a.Stat? || a.OpenEnd? || a.OpenFails? || a.InitEntry?
  }

  lemma OpenMoves(s: System, a: Action, t: nat)
    requires LossInv(s) && Can(s, a) && t in TailersAfter(s, a) && Actor(a) == Some(t)
    requires IsOpening(a)
    ensures TailerOk(Do(s, a), t)
  {
    if t in s.tailers { assert TailerOk(s, t); }
    RunningStays(s, a);
    match a
    case ReadEntry(_) => SavedIsSafe(s, t);
    case _ =>
  }

  lemma LineMoves(s: System, a: Action, t: nat)
    requires LossInv(s) && Can(s, a) && t in TailersAfter(s, a) && Actor(a) == Some(t)
    requires a.Receive? || a.Tell? || a.TellFails? || a.Quit?
    ensures TailerOk(Do(s, a), t)
  {
    assert TailerOk(s, t);
    match a
    case Tell(_, line) => TellIsSafe(s, t, line);
    case TellFails(_) => ZeroSafe(LogOf(s, t), s.ahead);
    case _ =>
  }

  lemma UpdateMoves(s: System, a: Action, t: nat)
    requires LossInv(s) && Can(s, a) && t in TailersAfter(s, a) && Actor(a) == Some(t)
    requires a.FindNode? || a.FindChild? || a.StoreOffset?
    ensures TailerOk(Do(s, a), t)
  {
    assert TailerOk(s, t);
    RunningStays(s, a);
  }

  lemma PublishMoves(s: System, t: nat)
    requires LossInv(s) && Can(s, Publish(t))
    ensures TailerOk(Do(s, Publish(t)), t)
  {
    assert TailerOk(s, t);
  }

  lemma LossStep(s: System, a: Action)
    requires LossInv(s) && Can(s, a)
    ensures LossInv(Do(s, a))
  {
    if StoreAct(s, a).Some? { Store.InvStep(s.store, StoreAct(s, a).value); }
    forall p | p in Do(s, a).logs ensures Accounted(Do(s, a).logs[p], s.ahead) {
      if p in s.logs { LogsGood(s, a, p); } else { LogActGood(s, a); }
    }
    OffsetsGood(s, a);
    forall t | t in TailersAfter(s, a) ensures TailerOk(Do(s, a), t) {
      TailerGood(s, a, t);
    }
  }

  lemma TailerGood(s: System, a: Action, t: nat)
    requires LossInv(s) && Can(s, a) && t in TailersAfter(s, a)
    ensures TailerOk(Do(s, a), t)
  {
    if Actor(a) != Some(t) {
      OnlyActorMoves(s, a, t);
      TailerStays(s, a, t);
    } else if IsOpening(a) {
      OpenMoves(s, a, t);
    } else if a.Publish? {
      PublishMoves(s, t);
    } else if a.FindNode? || a.FindChild? || a.StoreOffset? {
      UpdateMoves(s, a, t);
    } else {
      LineMoves(s, a, t);
    }
  }

  lemma LossInit(s: System)
    requires Init(s)
    ensures LossInv(s)
  {}

  lemma {:induction false} LossRun(tr: seq<System>, acts: seq<Action>, j: nat)
    requires Run(tr, acts) && Init(tr[0]) && j < |tr|
    ensures LossInv(tr[j]) && tr[j].ahead == tr[0].ahead && tr[j].logs.Keys == tr[0].logs.Keys
  {
    if j == 0 {
      LossInit(tr[0]);
    } else {
      assert StepAt(tr, acts, j - 1);
      LossRun(tr, acts, j - 1);
      LossStep(tr[j - 1], acts[j - 1]);
      KeysStay(tr[j - 1], acts[j - 1]);
    }
  }

  lemma KeysStay(s: System, a: Action)
    requires LossInv(s) && Can(s, a)
    ensures LogsAfter(s, a).Keys == s.logs.Keys
  {
    if LogAct(s, a).Some? { LogActGood(s, a); }
  }

  // --- the main results ---

  // Step i is a tailer of file p resuming at a saved offset.
  predicate Resumes(tr: seq<System>, acts: seq<Action>, p: (string, string), i: nat)
    requires i < |acts| && i < |tr|
  {
    acts[i].OpenAt? && acts[i].t in tr[i].tailers
    && (tr[i].tailers[acts[i].t].key, tr[i].tailers[acts[i].t].file) == p
  }

  function Resumptions(tr: seq<System>, acts: seq<Action>, p: (string, string), j: nat): nat
    requires j <= |acts| && |tr| == |acts| + 1
  {
    if j == 0 then 0
    else Resumptions(tr, acts, p, j - 1) + if Resumes(tr, acts, p, j - 1) then 1 else 0
  }

  lemma {:induction false} ResumesCounted(tr: seq<System>, acts: seq<Action>, p: (string, string), j: nat)
    requires Run(tr, acts) && Init(tr[0]) && j < |tr| && p in tr[0].logs
    ensures p in tr[j].logs && tr[j].logs[p].resumes == Resumptions(tr, acts, p, j)
  {
    if j > 0 {
      assert StepAt(tr, acts, j - 1);
      ResumesCounted(tr, acts, p, j - 1);
    }
  }

  // In every run, with any number of crashes, tailers and overlapping commits,
  // and even when Tell fails: each line of file p before the point reached has
  // been published, or was passed over by a resumption (at most ahead + 1
  // consecutive lines each), or was skipped by a start near the end of the file.
  lemma BoundedLoss(tr: seq<System>, acts: seq<Action>, p: (string, string), j: nat)
    requires Run(tr, acts) && Init(tr[0]) && j < |tr| && p in tr[0].logs
    ensures p in tr[j].logs
    ensures forall k | 0 <= k < tr[j].logs[p].settled ::
              k in tr[j].logs[p].published || Within(tr[j].logs[p].gaps, k) || Within(tr[j].logs[p].skips, k)
    ensures |tr[j].logs[p].gaps| <= Resumptions(tr, acts, p, j)
    ensures forall i | 0 <= i < |tr[j].logs[p].gaps| ::
              tr[j].logs[p].gaps[i].hi - tr[j].logs[p].gaps[i].lo <= tr[0].ahead + 1
    ensures |MissingLines(tr[j].logs[p]) - SkippedLines(tr[j].logs[p])| <=
            Resumptions(tr, acts, p, j) * (tr[0].ahead + 1)
  {
    LossRun(tr, acts, j);
    ResumesCounted(tr, acts, p, j);
    assert Accounted(tr[j].logs[p], tr[j].ahead);
    LossBound(tr[j].logs[p], tr[j].ahead);
  }

  predicate InLoop(pc: Pc) {
    pc.Idle? || pc.Received? || pc.Told? || pc.AtNode? || pc.AtChild? || pc.Updated?
  }

  // ... and no tailer is ever past that point.
  lemma NoTailerAhead(tr: seq<System>, acts: seq<Action>, t: nat, j: nat)
    requires Run(tr, acts) && Init(tr[0]) && j < |tr| && t in tr[j].tailers && InLoop(tr[j].tailers[t].pc)
    ensures (tr[j].tailers[t].key, tr[j].tailers[t].file) in tr[j].logs
    ensures tr[j].tailers[t].pos <= LogOf(tr[j], t).settled
  {
    LossRun(tr, acts, j);
    assert TailerOk(tr[j], t);
  }

  // Whatever moment the process dies at, the offset the state file then has for
  // a file is the beginning of a line at most ahead + 1 past the point reached.
  lemma StateFileSafe(tr: seq<System>, acts: seq<Action>, j: nat, key: string, file: string)
    requires Run(tr, acts) && Init(tr[0]) && j < |tr|
    requires tr[j].store.disk.Holds? && key in tr[j].store.disk.image && file in tr[j].store.disk.image[key]
    requires (key, file) in tr[j].logs
    ensures Safe(tr[j].logs[(key, file)], tr[0].ahead, tr[j].store.disk.image[key][file])
  {
    LossRun(tr, acts, j);
    assert (key, file, tr[j].store.disk.image[key][file]) in SafeOffsets(tr[j]);
    assert SafeFor(tr[j], key, file, tr[j].store.disk.image[key][file]);
  }

  // Update never finds the box missing that it saw a moment before, whatever was
  // removed, cleaned up or registered again in between.
  lemma UpdateFindsItsBox(tr: seq<System>, acts: seq<Action>, j: nat, t: nat)
    requires Run(tr, acts) && Init(tr[0]) && j < |tr| && t in tr[j].tailers && tr[j].tailers[t].pc.AtChild?
    ensures Can(tr[j], StoreOffset(t))
  {
    LossRun(tr, acts, j);
    assert TailerOk(tr[j], t);
  }

  // A resumption never gets stuck: its offset is the beginning of a line.
  lemma ResumeEnabled(tr: seq<System>, acts: seq<Action>, j: nat, t: nat) returns (line: nat)
    requires Run(tr, acts) && Init(tr[0]) && j < |tr| && t in tr[j].tailers && tr[j].tailers[t].pc.At?
    ensures Can(tr[j], OpenAt(t, line))
  {
    LossRun(tr, acts, j);
    assert TailerOk(tr[j], t);
    line :| SafeAt(LogOf(tr[j], t), tr[j].ahead, tr[j].tailers[t].pc.offset, line);
  }

  lemma FirstStart(s: System, t: nat, line: nat)
    requires Can(s, OpenEnd(t, line)) && Accounted(LogOf(s, t), s.ahead) && LogOf(s, t).settled == 0
    ensures LogOf(Do(s, OpenEnd(t, line)), t).skips == LogOf(s, t).skips
            <==> s.tailers[t].pc.limit == Size(LogOf(s, t))
  {
    var log := LogOf(s, t);
    BytesMonotone(log.lines, 0, line);
    var g := Gap(log.settled, FirstWhole(s, t, line));
    assert |log.skips + [g]| == |log.skips| + 1;
    if s.tailers[t].pc.limit != Size(log) && line == 0 { assert Bytes(log.lines, 0) == 0; }
  }

  // The very first start of a tailer on a file passes over nothing exactly when
  // the limit found by Stat is still the size of the file when it is opened: the
  // file was within read_limit, and did not grow between stat and open.
  lemma FirstStartLossless(tr: seq<System>, acts: seq<Action>, j: nat, t: nat, line: nat)
    requires Run(tr, acts) && Init(tr[0]) && j < |acts| && acts[j] == OpenEnd(t, line)
    requires Can(tr[j], acts[j]) && LogOf(tr[j], t).settled == 0
    ensures Guard(tr[j + 1], InitEntry(t))
    ensures LogOf(tr[j + 1], t).skips == LogOf(tr[j], t).skips
            <==> tr[j].tailers[t].pc.limit == Size(LogOf(tr[j], t))
  {
    assert StepAt(tr, acts, j);
    LossRun(tr, acts, j);
    FirstStart(tr[j], t, line);
  }
}
