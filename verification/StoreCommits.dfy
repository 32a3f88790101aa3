// What reaches the state file: each commit writes the image it took, and a write
// cut short by a crash leaves nothing to load.
module StoreCommits {
  import opened Options
  import opened TrackerSpec
  import opened Store
  import StoreHeap

  // The image with ticket c is img, or has been written.
  ghost predicate Ticket(s: State, c: nat, img: Image) {
    c < s.tickets && (c in s.pending ==> s.pending[c] == img)
  }

  lemma TicketStep(s: State, a: Action, c: nat, img: Image)
    requires Inv(s) && Can(s, a) && Ticket(s, c, img)
    ensures Ticket(Do(s, a), c, img)
    ensures c !in s.pending ==> c !in Do(s, a).pending
  {}

  lemma {:induction false} TicketRun(tr: seq<State>, acts: seq<Action>, i: nat, j: nat, c: nat, img: Image)
    requires Run(tr, acts) && Init(tr[0]) && i <= j < |tr| && Ticket(tr[i], c, img)
    ensures Ticket(tr[j], c, img)
    ensures c !in tr[i].pending ==> c !in tr[j].pending
  {
    if i < j {
      assert StepAt(tr, acts, j - 1);
      TicketRun(tr, acts, i, j - 1, c, img);
      InvRun(tr, acts, j - 1);
      TicketStep(tr[j - 1], acts[j - 1], c, img);
    }
  }

  lemma EncodeTakes(s: State)
    requires Can(s, EncodeEnd)
    ensures s.tickets in Do(s, EncodeEnd).pending
    ensures Ticket(Do(s, EncodeEnd), s.tickets, Do(s, EncodeEnd).pending[s.tickets])
  {}

  lemma WriteLands(s: State, c: nat, img: Image)
    requires Can(s, WriteEnd) && s.writer == Some(c) && Ticket(s, c, img)
    ensures Do(s, WriteEnd).disk == Holds(img) && c !in Do(s, WriteEnd).pending
    ensures Ticket(Do(s, WriteEnd), c, img)
  {}

  // A commit takes its image in step e and finishes writing in step j: the state
  // file then has that very image, and this commit writes nothing any more.
  lemma CommitLands(tr: seq<State>, acts: seq<Action>, e: nat, j: nat, l: nat)
    requires Run(tr, acts) && Init(tr[0]) && e < j < l < |tr| && acts[e] == EncodeEnd
    requires acts[j] == WriteEnd && tr[j].writer == Some(tr[e].tickets)
    ensures tr[e].tickets in tr[e + 1].pending
    ensures tr[j + 1].disk == Holds(tr[e + 1].pending[tr[e].tickets])
    ensures tr[e].tickets !in tr[l].pending
  {
    assert StepAt(tr, acts, e) && StepAt(tr, acts, j);
    var c := tr[e].tickets;
    EncodeTakes(tr[e]);
    var img := tr[e + 1].pending[c];
    TicketRun(tr, acts, e + 1, j, c, img);
    WriteLands(tr[j], c, img);
    TicketRun(tr, acts, j + 1, l, c, img);
  }

  lemma UnreadableStep(s: State, a: Action)
    requires Can(s, a) && s.disk == Unreadable && a != WriteEnd
    ensures Do(s, a).disk == Unreadable
  {}

  lemma {:induction false} UnreadableRun(tr: seq<State>, acts: seq<Action>, i: nat, j: nat)
    requires Run(tr, acts) && i <= j < |tr| && tr[i].disk == Unreadable
    requires forall m | i <= m < j :: acts[m] != WriteEnd
    ensures tr[j].disk == Unreadable
  {
    if i < j {
      assert StepAt(tr, acts, j - 1);
      UnreadableRun(tr, acts, i, j - 1);
      UnreadableStep(tr[j - 1], acts[j - 1]);
    }
  }

  // If a process dies between the beginning and the end of a write, the next one
  // starts with an empty cache.
  lemma TornWriteLosesAll(tr: seq<State>, acts: seq<Action>, i: nat, j: nat, l: nat)
    requires Run(tr, acts) && Init(tr[0]) && i < j < l < |acts|
    requires acts[i].WriteBegin? && acts[j] == Crash && acts[l] == LoadEnd
    requires forall m | i < m < l :: acts[m] != WriteEnd
    ensures View(tr[l + 1]) == map[]
  {
    assert StepAt(tr, acts, i);
    UnreadableRun(tr, acts, i + 1, l);
    StoreHeap.LoadRestores(tr, acts, l);
  }
}
