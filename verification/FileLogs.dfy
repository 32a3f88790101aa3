// One append-only log file, what has been published of it, and which of its
// lines were passed over.
module FileLogs {

  // Lines lo, lo + 1, ..., hi - 1.
  datatype Gap = Gap(lo: nat, hi: nat)

  datatype FileLog = FileLog(
    lines: seq<string>,      // the file; each line with its newline
    published: seq<nat>,     // numbers of the lines published, in order, repeats included
    settled: nat,            // lines below this one have been dealt with
    gaps: seq<Gap>,          // passed over when a tailer resumed at a saved offset
    skips: seq<Gap>,         // passed over when a tailer began near the end of the file
    resumes: nat)            // how often a tailer resumed at a saved offset

  // Byte offset of line k.
  function Bytes(lines: seq<string>, k: nat): nat
    requires k <= |lines|
  {
    if k == 0 then 0 else Bytes(lines, k - 1) + |lines[k - 1]|
  }

  function Size(log: FileLog): nat {
    Bytes(log.lines, |log.lines|)
  }

  // getReadLimit for a file of the given size.
  function ReadLimit(size: nat, sizeLimit: nat): nat {
    if size > sizeLimit then sizeLimit else size
  }

  function Max(a: nat, b: nat): nat {
    if a < b then b else a
  }

  function Appended(log: FileLog, line: string): FileLog {
    log.(lines := log.lines + [line])
  }

  function Resumed(log: FileLog, k: nat): FileLog {
    log.(resumes := log.resumes + 1, settled := Max(log.settled, k),
         gaps := if k > log.settled then log.gaps + [Gap(log.settled, k)] else log.gaps)
  }

  // A tailer without a saved offset begins; lines below h are not going to be
  // published in full.
  function Began(log: FileLog, h: nat): FileLog {
    log.(settled := Max(log.settled, h),
         skips := if h > log.settled then log.skips + [Gap(log.settled, h)] else log.skips)
  }

  function PublishedLine(log: FileLog, k: nat, whole: bool): FileLog {
    log.(settled := Max(log.settled, k + 1),
         published := if whole then log.published + [k] else log.published)
  }

  // The line that contains byte `offset` (|lines| for the end of the file).
  predicate Contains(lines: seq<string>, k: nat, offset: nat) {
    k <= |lines| && Bytes(lines, k) <= offset
    && (if k == |lines| then offset == Bytes(lines, k) else offset < Bytes(lines, k + 1))
  }

  predicate Within(gaps: seq<Gap>, k: nat) {
    exists i | 0 <= i < |gaps| :: gaps[i].lo <= k < gaps[i].hi
  }

  // Everything before `settled` is accounted for, and no resumption passed over
  // more than ahead + 1 lines.
  ghost predicate Accounted(log: FileLog, ahead: nat) {
    && (forall k | 0 <= k < |log.lines| :: log.lines[k] != "")
    && log.settled <= |log.lines|
    && (forall k | 0 <= k < log.settled ::
          k in log.published || Within(log.gaps, k) || Within(log.skips, k))
    && |log.gaps| <= log.resumes
    && (forall i | 0 <= i < |log.gaps| :: log.gaps[i].hi - log.gaps[i].lo <= ahead + 1)
  }

  ghost predicate SafeAt(log: FileLog, ahead: nat, offset: int, k: nat) {
    k <= |log.lines| && k <= log.settled + ahead + 1 && Bytes(log.lines, k) == offset
  }

  // Resuming at a safe offset loses at most ahead + 1 lines.
  ghost predicate Safe(log: FileLog, ahead: nat, offset: int) {
    exists k: nat :: SafeAt(log, ahead, offset, k)
  }

  // The file was only appended to, and progress was only made.
  ghost predicate Grows(before: FileLog, after: FileLog) {
    before.lines <= after.lines && before.settled <= after.settled
  }

  lemma {:induction false} BytesPrefix(a: seq<string>, b: seq<string>, k: nat)
    requires a <= b && k <= |a|
    ensures Bytes(a, k) == Bytes(b, k)
  {
    if k > 0 { BytesPrefix(a, b, k - 1); }
  }

  lemma {:induction false} BytesMonotone(lines: seq<string>, i: nat, j: nat)
    requires i <= j <= |lines| && forall k | 0 <= k < |lines| :: lines[k] != ""
    ensures Bytes(lines, i) + (j - i) <= Bytes(lines, j)
  {
    if i < j { BytesMonotone(lines, i, j - 1); }
  }

  // An offset is the beginning of at most one line.
  lemma OffsetIsOneLine(lines: seq<string>, i: nat, j: nat)
    requires i <= |lines| && j <= |lines| && forall k | 0 <= k < |lines| :: lines[k] != ""
    ensures Bytes(lines, i) == Bytes(lines, j) <==> i == j
  {
    if i <= j { BytesMonotone(lines, i, j); } else { BytesMonotone(lines, j, i); }
  }

  lemma SafeGrows(before: FileLog, after: FileLog, ahead: nat, offset: int)
    requires Grows(before, after) && Safe(before, ahead, offset)
    ensures Safe(after, ahead, offset)
  {
    var k: nat :| SafeAt(before, ahead, offset, k);
    BytesPrefix(before.lines, after.lines, k);
    assert SafeAt(after, ahead, offset, k);
  }

  lemma ZeroSafe(log: FileLog, ahead: nat)
    ensures Safe(log, ahead, 0)
  {
    assert SafeAt(log, ahead, 0, 0);
  }

  lemma AppendedKeeps(log: FileLog, line: string, ahead: nat)
    requires Accounted(log, ahead) && line != ""
    ensures Accounted(Appended(log, line), ahead) && Grows(log, Appended(log, line))
  {}

  lemma WithinMore(gaps: seq<Gap>, g: Gap, k: nat)
    ensures Within(gaps + [g], k) <==> Within(gaps, k) || g.lo <= k < g.hi
  {
    if Within(gaps, k) {
      var i :| 0 <= i < |gaps| && gaps[i].lo <= k < gaps[i].hi;
      assert (gaps + [g])[i] == gaps[i];
    }
    if g.lo <= k < g.hi { assert (gaps + [g])[|gaps|] == g; }
  }

  lemma ResumedKeeps(log: FileLog, offset: int, k: nat, ahead: nat)
    requires Accounted(log, ahead) && Safe(log, ahead, offset)
    requires k <= |log.lines| && Bytes(log.lines, k) == offset
    ensures Accounted(Resumed(log, k), ahead) && Grows(log, Resumed(log, k))
  {
    var l: nat :| SafeAt(log, ahead, offset, l);
    OffsetIsOneLine(log.lines, k, l);
    var next := Resumed(log, k);
    forall m | 0 <= m < next.settled
      ensures m in next.published || Within(next.gaps, m) || Within(next.skips, m)
    {
      WithinMore(log.gaps, Gap(log.settled, k), m);
    }
  }

  lemma BeganKeeps(log: FileLog, h: nat, ahead: nat)
    requires Accounted(log, ahead) && h <= |log.lines|
    ensures Accounted(Began(log, h), ahead) && Grows(log, Began(log, h))
  {
    var next := Began(log, h);
    forall m | 0 <= m < next.settled
      ensures m in next.published || Within(next.gaps, m) || Within(next.skips, m)
    {
      WithinMore(log.skips, Gap(log.settled, h), m);
    }
  }

  lemma PublishedKeeps(log: FileLog, k: nat, whole: bool, ahead: nat)
    requires Accounted(log, ahead) && k < |log.lines| && k <= log.settled
    requires !whole ==> k < log.settled
    ensures Accounted(PublishedLine(log, k, whole), ahead) && Grows(log, PublishedLine(log, k, whole))
  {
    var next := PublishedLine(log, k, whole);
    assert whole ==> next.published[|log.published|] == k;
    forall m | 0 <= m < next.settled
      ensures m in next.published || Within(next.gaps, m) || Within(next.skips, m)
    {
      assert m in log.published ==> m in next.published;
    }
  }

  // The lines that a resumption or a start passes over are those between the
  // point reached and where it reads on, and no others.
  lemma PassedOver(log: FileLog, k: nat, m: nat)
    ensures Within(Resumed(log, k).gaps, m) <==> Within(log.gaps, m) || log.settled <= m < k
    ensures Within(Began(log, k).skips, m) <==> Within(log.skips, m) || log.settled <= m < k
  {
    WithinMore(log.gaps, Gap(log.settled, k), m);
    WithinMore(log.skips, Gap(log.settled, k), m);
  }

  // --- how many lines can be missing ---

  ghost function Interval(lo: nat, hi: nat): (s: set<nat>)
    ensures forall k :: k in s <==> lo <= k < hi
    ensures |s| == if lo < hi then hi - lo else 0
    decreases hi
  {
    if lo < hi then Interval(lo, hi - 1) + {hi - 1} else {}
  }

  ghost function Span(gaps: seq<Gap>): set<nat> {
    if gaps == [] then {} else Span(gaps[..|gaps| - 1]) + Interval(gaps[|gaps| - 1].lo, gaps[|gaps| - 1].hi)
  }

  lemma {:induction false} SpanHas(gaps: seq<Gap>, k: nat)
    requires Within(gaps, k)
    ensures k in Span(gaps)
  {
    var i :| 0 <= i < |gaps| && gaps[i].lo <= k < gaps[i].hi;
    if i < |gaps| - 1 {
      assert gaps[..|gaps| - 1][i] == gaps[i];
      SpanHas(gaps[..|gaps| - 1], k);
    }
  }

  lemma {:induction false} SubsetSize(a: set<nat>, b: set<nat>)
    requires a <= b
    ensures |a| <= |b|
  {
    if a != {} {
      var x :| x in a;
      SubsetSize(a - {x}, b - {x});
    }
  }

  lemma Successor(n: nat, width: nat)
    ensures (n + 1) * width == n * width + width
  {}

  lemma {:induction false} SpanSize(gaps: seq<Gap>, width: nat)
    requires forall i | 0 <= i < |gaps| :: gaps[i].hi - gaps[i].lo <= width
    ensures |Span(gaps)| <= |gaps| * width
  {
    if gaps != [] {
      var n := |gaps| - 1;
      var front, last := Span(gaps[..n]), Interval(gaps[n].lo, gaps[n].hi);
      assert |front + last| <= |front| + |last|;
      Successor(n, width);
      SpanSize(gaps[..n], width);
    }
  }

  function MissingLines(log: FileLog): set<nat> {
    set k: nat | k < log.settled && k !in log.published
  }

  function SkippedLines(log: FileLog): set<nat> {
    set k: nat | k < log.settled && Within(log.skips, k)
  }

  // Of the lines dealt with, not counting those skipped by a start near the end
  // of the file, n resumptions lose at most n * (ahead + 1).
  lemma LossBound(log: FileLog, ahead: nat)
    requires Accounted(log, ahead)
    ensures |MissingLines(log) - SkippedLines(log)| <= log.resumes * (ahead + 1)
  {
    var lost := MissingLines(log) - SkippedLines(log);
    forall k | k in lost ensures k in Span(log.gaps) {
      SpanHas(log.gaps, k);
    }
    SubsetSize(lost, Span(log.gaps));
    SpanSize(log.gaps, ahead + 1);
    Scale(|log.gaps|, log.resumes, ahead + 1);
  }

  lemma Scale(a: nat, b: nat, w: nat)
    requires a <= b
    ensures a * w <= b * w
  {}
}
