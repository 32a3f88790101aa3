// What a tailer publishes: from where it starts on, line after line.
module AppReading {
  import TrackerSpec
  import opened FileLogs
  import Store
  import StoreHeap
  import opened Apptail
  import opened AppEntries
  import AppLoss

  // What step m adds to the published lines of file p.
  function AddedLines(tr: seq<System>, m: nat, p: (string, string)): seq<nat>
    requires m + 1 < |tr|
  {
    if p in tr[m].logs && p in tr[m + 1].logs && |tr[m].logs[p].published| <= |tr[m + 1].logs[p].published|
    then tr[m + 1].logs[p].published[|tr[m].logs[p].published|..] else []
  }

  // The lines that tailer t publishes from step i up to moment j.
  function PublishedBy(tr: seq<System>, acts: seq<Action>, t: nat, i: nat, j: nat): seq<nat>
    requires |tr| == |acts| + 1 && j <= |acts|
  {
    if j <= i then []
    else PublishedBy(tr, acts, t, i, j - 1) +
         if acts[j - 1] == Publish(t) && t in tr[j - 1].tailers
         then AddedLines(tr, j - 1, (tr[j - 1].tailers[t].key, tr[j - 1].tailers[t].file)) else []
  }

  // first, first + 1, ..., last - 1.
  function Upto(first: nat, last: nat): (s: seq<nat>)
    ensures |s| == (if first < last then last - first else 0) && forall i | 0 <= i < |s| :: s[i] == first + i
  {
    if first < last then Upto(first, last - 1) + [last - 1] else []
  }

  predicate Reads(pc: Pc) {
    pc.Opened? || AppLoss.InLoop(pc) || pc.Ended?
  }

  // Tailer x was at line pos, whole or cut, and has published all whole lines
  // from there on before its present one.
  predicate Along(x: Tailer, pos: nat, whole: bool) {
    Reads(x.pc) && pos <= x.pos && (if x.pos == pos then x.whole == whole else x.whole)
  }

  function FirstWholeLine(pos: nat, whole: bool): nat {
    if whole then pos else pos + 1
  }

  lemma TailerStep(s: System, a: Action, t: nat, pos: nat, whole: bool)
    requires Can(s, a) && !Dies(a) && t in s.tailers && Along(s.tailers[t], pos, whole)
    ensures t in TailersAfter(s, a) && Along(TailersAfter(s, a)[t], pos, whole)
    ensures TailersAfter(s, a)[t].key == s.tailers[t].key && TailersAfter(s, a)[t].file == s.tailers[t].file
    ensures TailersAfter(s, a)[t].pos == s.tailers[t].pos + if a == Publish(t) then 1 else 0
  {}

  lemma PublishAdds(s: System, t: nat)
    requires Can(s, Publish(t))
    ensures var p := (s.tailers[t].key, s.tailers[t].file);
      p in LogsAfter(s, Publish(t))
      && LogsAfter(s, Publish(t))[p].published ==
         s.logs[p].published + if s.tailers[t].whole then [s.tailers[t].pos] else []
  {}

  // What the last step adds to the lines of t.
  lemma OneMoreStep(tr: seq<System>, acts: seq<Action>, t: nat, i: nat, j: nat)
    requires Run(tr, acts) && i < j < |tr| && t in tr[j - 1].tailers
    ensures PublishedBy(tr, acts, t, i, j) == PublishedBy(tr, acts, t, i, j - 1) +
            if acts[j - 1] == Publish(t) && tr[j - 1].tailers[t].whole then [tr[j - 1].tailers[t].pos] else []
  {
    assert StepAt(tr, acts, j - 1);
    if acts[j - 1] == Publish(t) { PublishAdds(tr[j - 1], t); }
  }

  lemma AlongStep(s: System, a: Action, t: nat, pos: nat, whole: bool)
    requires Can(s, a) && !Dies(a) && t in s.tailers && Along(s.tailers[t], pos, whole)
    ensures t in TailersAfter(s, a)
    ensures Upto(FirstWholeLine(pos, whole), TailersAfter(s, a)[t].pos) ==
            Upto(FirstWholeLine(pos, whole), s.tailers[t].pos) +
            if a == Publish(t) && s.tailers[t].whole then [s.tailers[t].pos] else []
  {
    TailerStep(s, a, t, pos, whole);
  }

  lemma {:induction false} PublishesInOrder(tr: seq<System>, acts: seq<Action>, t: nat, i: nat, j: nat,
                                            pos: nat, whole: bool)
    requires Run(tr, acts) && i <= j < |tr| && Alive(acts, i, j)
    requires t in tr[i].tailers && Along(tr[i].tailers[t], pos, whole) && tr[i].tailers[t].pos == pos
    ensures t in tr[j].tailers && Along(tr[j].tailers[t], pos, whole)
    ensures PublishedBy(tr, acts, t, i, j) == Upto(FirstWholeLine(pos, whole), tr[j].tailers[t].pos)
  {
    if i < j {
      var s, a := tr[j - 1], acts[j - 1];
      assert StepAt(tr, acts, j - 1);
      PublishesInOrder(tr, acts, t, i, j - 1, pos, whole);
      OneMoreStep(tr, acts, t, i, j);
      AlongStep(s, a, t, pos, whole);
      TailerStep(s, a, t, pos, whole);
    }
  }

  // A step that publishes nothing makes no difference.
  lemma {:induction false} SameFrom(tr: seq<System>, acts: seq<Action>, t: nat, j: nat, q: nat)
    requires |tr| == |acts| + 1 && j < q < |tr| && acts[j] != Publish(t)
    ensures PublishedBy(tr, acts, t, j, q) == PublishedBy(tr, acts, t, j + 1, q)
  {
    if j + 1 < q { SameFrom(tr, acts, t, j, q - 1); }
  }

  // What a tailer publishes once it has opened its file in step j.
  lemma PublishesFrom(tr: seq<System>, acts: seq<Action>, t: nat, j: nat, q: nat)
    requires Run(tr, acts) && j < q < |tr| && Alive(acts, j, q) && acts[j] != Publish(t)
    requires t in tr[j + 1].tailers && Reads(tr[j + 1].tailers[t].pc)
    ensures t in tr[q].tailers && tr[j + 1].tailers[t].pos <= tr[q].tailers[t].pos
    ensures PublishedBy(tr, acts, t, j, q) ==
            Upto(FirstWholeLine(tr[j + 1].tailers[t].pos, tr[j + 1].tailers[t].whole), tr[q].tailers[t].pos)
  {
    PublishesInOrder(tr, acts, t, j + 1, q, tr[j + 1].tailers[t].pos, tr[j + 1].tailers[t].whole);
    SameFrom(tr, acts, t, j, q);
  }

  // --- after resuming ---

  lemma {:induction false} OffsetKept(tr: seq<System>, acts: seq<Action>, t: nat, i: nat, j: nat, offset: int)
    requires Run(tr, acts) && i < j < |tr| && Alive(acts, i, j) && acts[i] == ReadEntry(t)
    requires t in tr[i + 1].tailers && tr[i + 1].tailers[t].pc == At(offset)
    ensures t in tr[j].tailers && (tr[j].tailers[t].pc.At? ==> tr[j].tailers[t].pc.offset == offset)
    ensures tr[j].tailers[t].pc.At? || Reads(tr[j].tailers[t].pc)
  {
    if i + 1 < j {
      assert StepAt(tr, acts, j - 1);
      OffsetKept(tr, acts, t, i, j - 1, offset);
    }
  }

  lemma OpensThere(s: System, t: nat, line: nat)
    requires Can(s, OpenAt(t, line))
    ensures var next := TailersAfter(s, OpenAt(t, line));
      t in next && next[t].pc == Idle && next[t].whole && next[t].pos <= |LogOf(s, t).lines|
      && Bytes(LogOf(s, t).lines, next[t].pos) == s.tailers[t].pc.offset
  {}

  // The offset that the tracker has for a file: 0 for an unknown container.
  function TrackedOffset(s: System, key: string, file: string): int
    requires key in s.store.cache ==> HasEntryFor(s, key, file)
  {
    if key in s.store.cache then Store.View(s.store)[key][file] else 0
  }

  lemma ReadsTracked(s: System, t: nat)
    requires Can(s, ReadEntry(t))
    ensures var x := s.tailers[t];
      (x.key in s.store.cache ==> HasEntryFor(s, x.key, x.file))
      && t in TailersAfter(s, ReadEntry(t))
      && TailersAfter(s, ReadEntry(t))[t].pc == At(TrackedOffset(s, x.key, x.file))
  {
    var x := s.tailers[t];
    if x.key in s.store.cache { StoreHeap.ViewAt(s.store, x.key, x.file); }
  }

  lemma {:induction false} LinesStay(tr: seq<System>, acts: seq<Action>, i: nat, j: nat, p: (string, string))
    requires Run(tr, acts) && Init(tr[0]) && i <= j < |tr| && p in tr[i].logs
    ensures p in tr[j].logs && tr[i].logs[p].lines <= tr[j].logs[p].lines
  {
    if i < j {
      assert StepAt(tr, acts, j - 1);
      LinesStay(tr, acts, i, j - 1, p);
      AppLoss.LossRun(tr, acts, j - 1);
      AppLoss.LogsGood(tr[j - 1], acts[j - 1], p);
    }
  }

  // A tailer that reads its saved offset in step i and opens the file in step j
  // publishes from then on, while the process lives, exactly the lines from the
  // one that begins at that offset, each once and in order, and the next one it
  // receives is the one after those.
  lemma ResumesAtOffset(tr: seq<System>, acts: seq<Action>, t: nat, i: nat, j: nat, q: nat, line: nat)
    returns (first: nat)
    requires Run(tr, acts) && Init(tr[0]) && i < j < q < |tr| && Alive(acts, i, q)
    requires acts[i] == ReadEntry(t) && acts[j] == OpenAt(t, line) && t in tr[i].tailers
    ensures var x, p := tr[i].tailers[t], (tr[i].tailers[t].key, tr[i].tailers[t].file);
      && (x.key in tr[i].store.cache ==> HasEntryFor(tr[i], x.key, x.file))
      && p in tr[q].logs && first <= |tr[q].logs[p].lines|
      && Bytes(tr[q].logs[p].lines, first) == TrackedOffset(tr[i], x.key, x.file)
    ensures t in tr[q].tailers && first <= tr[q].tailers[t].pos
    ensures PublishedBy(tr, acts, t, j, q) == Upto(first, tr[q].tailers[t].pos)
  {
    assert StepAt(tr, acts, i) && StepAt(tr, acts, j);
    ReadsTracked(tr[i], t);
    var x, p := tr[i].tailers[t], (tr[i].tailers[t].key, tr[i].tailers[t].file);
    OffsetKept(tr, acts, t, i, j, TrackedOffset(tr[i], x.key, x.file));
    TailerStays(tr, acts, i, j, t);
    OpensThere(tr[j], t, line);
    first := tr[j + 1].tailers[t].pos;
    PublishesFrom(tr, acts, t, j, q);
    LinesStay(tr, acts, j, q, p);
    BytesPrefix(tr[j].logs[p].lines, tr[q].logs[p].lines, first);
  }

  // --- after a start without an entry ---

  // The first whole line at or after byte `offset`.
  predicate FirstFrom(lines: seq<string>, first: nat, offset: int) {
    first <= |lines| && Bytes(lines, first) >= offset && (first > 0 ==> Bytes(lines, first - 1) < offset)
  }

  lemma {:induction false} LimitKept(tr: seq<System>, acts: seq<Action>, t: nat, i: nat, j: nat, limit: nat)
    requires Run(tr, acts) && i < j < |tr| && Alive(acts, i, j) && acts[i] == Stat(t)
    requires t in tr[i + 1].tailers && tr[i + 1].tailers[t].pc == Limited(limit)
    ensures t in tr[j].tailers && (tr[j].tailers[t].pc.Limited? ==> tr[j].tailers[t].pc.limit == limit)
    ensures tr[j].tailers[t].pc.Limited? || Reads(tr[j].tailers[t].pc)
  {
    if i + 1 < j {
      assert StepAt(tr, acts, j - 1);
      LimitKept(tr, acts, t, i, j - 1, limit);
    }
  }

  lemma StatLimits(s: System, t: nat)
    requires Can(s, Stat(t))
    ensures var size, next := Size(LogOf(s, t)), TailersAfter(s, Stat(t));
      t in next && next[t].pc == Limited(if size <= s.sizeLimit then size else s.sizeLimit)
  {}

  lemma OpensNearEnd(s: System, t: nat, line: nat)
    requires Can(s, OpenEnd(t, line)) && forall k | 0 <= k < |LogOf(s, t).lines| :: LogOf(s, t).lines[k] != ""
    ensures var x := TailersAfter(s, OpenEnd(t, line))[t];
      t in TailersAfter(s, OpenEnd(t, line)) && x.pc == Opened(true)
      && FirstFrom(LogOf(s, t).lines, FirstWholeLine(x.pos, x.whole), Size(LogOf(s, t)) - s.tailers[t].pc.limit)
  {
    var lines := LogOf(s, t).lines;
    if line > 0 { BytesMonotone(lines, line - 1, line); }
  }

  lemma LinesNotEmpty(tr: seq<System>, acts: seq<Action>, j: nat, p: (string, string))
    requires Run(tr, acts) && Init(tr[0]) && j < |tr| && p in tr[j].logs
    ensures forall k | 0 <= k < |tr[j].logs[p].lines| :: tr[j].logs[p].lines[k] != ""
  {
    AppLoss.LossRun(tr, acts, j);
  }

  lemma OpenedNearEnd(tr: seq<System>, acts: seq<Action>, t: nat, j: nat, line: nat) returns (first: nat)
    requires Run(tr, acts) && Init(tr[0]) && j < |acts| && acts[j] == OpenEnd(t, line)
    ensures PcIs(tr[j], t, (pc: Pc) => pc.Limited?) && t in tr[j + 1].tailers
    ensures var x := tr[j + 1].tailers[t]; x.pc == Opened(true) && first == FirstWholeLine(x.pos, x.whole)
    ensures FirstFrom(LogOf(tr[j], t).lines, first, Size(LogOf(tr[j], t)) - tr[j].tailers[t].pc.limit)
  {
    assert StepAt(tr, acts, j);
    LinesNotEmpty(tr, acts, j, (tr[j].tailers[t].key, tr[j].tailers[t].file));
    OpensNearEnd(tr[j], t, line);
    first := FirstWholeLine(tr[j + 1].tailers[t].pos, tr[j + 1].tailers[t].whole);
  }

  lemma LimitAtOpen(tr: seq<System>, acts: seq<Action>, t: nat, i: nat, j: nat, line: nat)
    requires Run(tr, acts) && i < j < |acts| && Alive(acts, i, j) && acts[i] == Stat(t) && acts[j] == OpenEnd(t, line)
    ensures t in tr[i].tailers && t in tr[j].tailers
    ensures tr[j].tailers[t].key == tr[i].tailers[t].key && tr[j].tailers[t].file == tr[i].tailers[t].file
    ensures (tr[i].tailers[t].key, tr[i].tailers[t].file) in tr[i].logs
    ensures var size := Size(LogOf(tr[i], t));
      tr[j].tailers[t].pc == Limited(if size <= tr[i].sizeLimit then size else tr[i].sizeLimit)
  {
    assert StepAt(tr, acts, i) && StepAt(tr, acts, j);
    StatLimits(tr[i], t);
    var size := Size(LogOf(tr[i], t));
    LimitKept(tr, acts, t, i, j, if size <= tr[i].sizeLimit then size else tr[i].sizeLimit);
    TailerStays(tr, acts, i, j, t);
  }

  // A tailer without an entry that looks at the size of the file in step i and
  // opens it in step j publishes from then on exactly the lines from the first
  // whole one within the last `limit` bytes the file has when it is opened, where
  // limit is the size found in step i or read_limit, whichever is less.
  lemma StartsNearEnd(tr: seq<System>, acts: seq<Action>, t: nat, i: nat, j: nat, q: nat, line: nat)
    returns (first: nat)
    requires Run(tr, acts) && Init(tr[0]) && i < j < q < |tr| && Alive(acts, i, q)
    requires acts[i] == Stat(t) && acts[j] == OpenEnd(t, line) && t in tr[i].tailers
    ensures var p := (tr[i].tailers[t].key, tr[i].tailers[t].file);
      p in tr[i].logs && p in tr[j].logs
      && var size := Size(tr[i].logs[p]);
         var limit := if size <= tr[i].sizeLimit then size else tr[i].sizeLimit;
         FirstFrom(tr[j].logs[p].lines, first, Size(tr[j].logs[p]) - limit)
    ensures t in tr[q].tailers && PublishedBy(tr, acts, t, j, q) == Upto(first, tr[q].tailers[t].pos)
  {
    LimitAtOpen(tr, acts, t, i, j, line);
    first := OpenedNearEnd(tr, acts, t, j, line);
    PublishesFrom(tr, acts, t, j, q);
  }

  // A tailer that has ended publishes nothing more.
  lemma {:induction false} EndedIsSilent(tr: seq<System>, acts: seq<Action>, t: nat, i: nat, j: nat)
    requires Run(tr, acts) && i <= j < |tr| && Alive(acts, i, j) && t in tr[i].tailers && tr[i].tailers[t].pc.Ended?
    ensures t in tr[j].tailers && tr[j].tailers[t].pc.Ended? && PublishedBy(tr, acts, t, i, j) == []
  {
    if i < j {
      assert StepAt(tr, acts, j - 1);
      EndedIsSilent(tr, acts, t, i, j - 1);
    }
  }

  lemma QuitEnds(tr: seq<System>, acts: seq<Action>, t: nat, i: nat, j: nat)
    requires Run(tr, acts) && i < j < |tr| && Alive(acts, i, j) && acts[i] == Quit(t)
    ensures PublishedBy(tr, acts, t, i + 1, j) == []
  {
    assert StepAt(tr, acts, i);
    EndedIsSilent(tr, acts, t, i + 1, j);
  }

  predicate Silent(pc: Pc) {
    pc == Opened(false) || pc.Ended?
  }

  lemma SilentStep(s: System, a: Action, t: nat)
    requires Can(s, a) && !Dies(a) && t in s.tailers && Silent(s.tailers[t].pc)
    ensures t in TailersAfter(s, a) && Silent(TailersAfter(s, a)[t].pc) && a != Publish(t)
    ensures a == InitEntry(t) || s.tailers[t].pc.Ended? ==> TailersAfter(s, a)[t].pc.Ended?
  {}

  lemma FailsSilently(s: System, t: nat)
    requires Can(s, OpenFails(t))
    ensures t in TailersAfter(s, OpenFails(t)) && TailersAfter(s, OpenFails(t))[t].pc == Opened(false)
  {}

  lemma {:induction false} StaysSilent(tr: seq<System>, acts: seq<Action>, t: nat, i: nat, j: nat)
    requires Run(tr, acts) && i < j < |tr| && Alive(acts, i, j) && acts[i] == OpenFails(t)
    ensures t in tr[j].tailers && Silent(tr[j].tailers[t].pc)
    ensures forall m | i < m < j :: acts[m] == InitEntry(t) ==> tr[j].tailers[t].pc.Ended?
  {
    assert StepAt(tr, acts, j - 1);
    if i + 1 < j {
      StaysSilent(tr, acts, t, i, j - 1);
      SilentStep(tr[j - 1], acts[j - 1], t);
    } else {
      FailsSilently(tr[i], t);
    }
  }

  // A tailer that could not open its file still enters it, and then ends: it
  // publishes nothing.
  lemma {:induction false} FailedOpenIsSilent(tr: seq<System>, acts: seq<Action>, t: nat, i: nat, j: nat)
    requires Run(tr, acts) && i < j < |tr| && Alive(acts, i, j) && acts[i] == OpenFails(t)
    ensures PublishedBy(tr, acts, t, i, j) == []
    ensures t in tr[j].tailers && Silent(tr[j].tailers[t].pc)
    ensures forall m | i < m < j :: acts[m] == InitEntry(t) ==> tr[j].tailers[t].pc.Ended?
  {
    StaysSilent(tr, acts, t, i, j);
    if i + 1 < j {
      FailedOpenIsSilent(tr, acts, t, i, j - 1);
      assert StepAt(tr, acts, j - 1);
      SilentStep(tr[j - 1], acts[j - 1], t);
    }
  }

  // --- what Update stores ---

  predicate Tells(a: Action, t: nat) {
    a == TellFails(t) || (a.Tell? && a.t == t)
  }

  // What Tell answered, 0 if it failed.
  function Answer(s: System, a: Action, t: nat): int
    requires Can(s, a) && Tells(a, t)
  {
    if a.Tell? then Bytes(LogOf(s, t).lines, a.line) else 0
  }

  predicate Carries(pc: Pc, offset: int) {
    match pc
    case Told(o) => o == offset
    case AtNode(o, _) => o == offset
    case AtChild(o, _) => o == offset
    case _ => true
  }

  lemma CarriesStep(s: System, a: Action, t: nat, offset: int)
    requires Can(s, a) && !Dies(a) && !Tells(a, t) && t in s.tailers && Carries(s.tailers[t].pc, offset)
    ensures t in TailersAfter(s, a) && Carries(TailersAfter(s, a)[t].pc, offset)
  {}

  lemma TellsAnswer(s: System, a: Action, t: nat)
    requires Can(s, a) && Tells(a, t)
    ensures t in TailersAfter(s, a) && TailersAfter(s, a)[t].pc == Told(Answer(s, a, t))
  {}

  lemma {:induction false} AnswerKept(tr: seq<System>, acts: seq<Action>, t: nat, i: nat, j: nat)
    requires Run(tr, acts) && i < j < |tr| && Alive(acts, i, j) && Tells(acts[i], t) && Can(tr[i], acts[i])
    requires forall m | i < m < j :: !Tells(acts[m], t)
    ensures t in tr[j].tailers && Carries(tr[j].tailers[t].pc, Answer(tr[i], acts[i], t))
  {
    assert StepAt(tr, acts, j - 1);
    if i + 1 < j {
      AnswerKept(tr, acts, t, i, j - 1);
      CarriesStep(tr[j - 1], acts[j - 1], t, Answer(tr[i], acts[i], t));
    } else {
      TellsAnswer(tr[i], acts[i], t);
    }
  }

  // The offset that an Update puts into the tracker is what Tell answered for the
  // line just received, 0 if Tell failed; nothing else in the tracker changes.
  lemma StoresAnswer(tr: seq<System>, acts: seq<Action>, t: nat, i: nat, j: nat)
    requires Run(tr, acts) && Init(tr[0]) && i < j < |acts| && Alive(acts, i, j)
    requires Tells(acts[i], t) && Can(tr[i], acts[i]) && acts[j] == StoreOffset(t)
    requires forall m | i < m < j :: !Tells(acts[m], t)
    requires t in tr[j].tailers && tr[j].tailers[t].pc.AtChild?
    requires var x := tr[j].tailers[t]; x.key in tr[j].store.cache && tr[j].store.cache[x.key] == x.pc.node
    ensures var x := tr[j].tailers[t];
      Store.View(tr[j + 1].store) ==
      TrackerSpec.Updated(Store.View(tr[j].store), x.key, x.file, Answer(tr[i], acts[i], t))
      && HasEntryFor(tr[j + 1], x.key, x.file)
      && Store.View(tr[j + 1].store)[x.key][x.file] == Answer(tr[i], acts[i], t)
  {
    assert StepAt(tr, acts, j);
    AnswerKept(tr, acts, t, i, j);
    MemoryGood(tr, acts, j);
    AppLoss.LossRun(tr, acts, j);
    assert AppLoss.TailerOk(tr[j], t);
    var x := tr[j].tailers[t];
    StoreHeap.ViewOfUpdate(tr[j].store, x.key, x.file, x.pc.offset);
    TrackerSpec.UpdatedShape(Store.View(tr[j].store), x.key, x.file, x.pc.offset);
    TrackerSpec.UpdatedAt(Store.View(tr[j].store), x.key, x.file, x.pc.offset, x.key, x.file);
  }
}
