// The guard around Tail: newinstance callbacks run concurrently, and the map of
// started instances decides which of them may call Tail.
module StartGuard {

  function Entered(started: map<string, int>, id: string, n: int): map<string, int> {
    if id in started then started else started[id := n]
  }

  class StartedInstance {
    var started: map<string, int>

    constructor ()
      ensures started == map[]
    {
      started := map[];
    }

    method CheckInstanceAndUpdate(n: int, id: string) returns (exist: bool)
      modifies this
      ensures started == Entered(old(started), id, n)
      ensures exist <==> id !in old(started)
      ensures started == if exist then old(started)[id := n] else old(started)
    {
      if id !in started {
        started := started[id := n];
        exist := true;
      } else {
        exist := false;
      }
    }

    method Delete(id: string)
      modifies this
      ensures started == old(started) - {id}
    {
      started := started - {id};
    }
  }

  // Where a callback, or the goroutine it starts, is.  The counter is read and
  // written without a lock.
  datatype At = Arrived | Read(n: int) | Counted | InTail | Returned | Refused | Finished

  datatype Call = Call(id: string, at: At)

  datatype State = State(
    counter: int,
    started: map<string, int>,
    calls: seq<Call>,
    owner: map<string, nat>)     // history: which call made the entry

  datatype Action =
    | Arrive(id: string)
    | ReadCounter(c: nat)
    | WriteCounter(c: nat)
    | Check(c: nat)
    | TailReturns(c: nat)
    | DeleteEntry(c: nat)

  predicate CallAt(s: State, c: nat, f: At -> bool) {
    c < |s.calls| && f(s.calls[c].at)
  }

  predicate Can(s: State, a: Action) {
    match a
    case Arrive(_) => true
    case ReadCounter(c) => CallAt(s, c, (x: At) => x.Arrived?)
    case WriteCounter(c) => CallAt(s, c, (x: At) => x.Read?)
    case Check(c) => CallAt(s, c, (x: At) => x.Counted?)
    case TailReturns(c) => CallAt(s, c, (x: At) => x.InTail?)
    case DeleteEntry(c) => CallAt(s, c, (x: At) => x.Returned?)
  }

  function Move(s: State, c: nat, at: At): seq<Call>
    requires c < |s.calls|
  {
    s.calls[c := s.calls[c].(at := at)]
  }

  function Do(s: State, a: Action): State
    requires Can(s, a)
  {
    match a
    case Arrive(id) => s.(calls := s.calls + [Call(id, Arrived)])
    case ReadCounter(c) => s.(calls := Move(s, c, Read(s.counter)))
    case WriteCounter(c) => s.(counter := s.calls[c].at.n + 1, calls := Move(s, c, Counted))
    case Check(c) =>
      var id := s.calls[c].id;
      if id in s.started then s.(calls := Move(s, c, Refused))
      else s.(started := Entered(s.started, id, s.counter), calls := Move(s, c, InTail),
              owner := s.owner[id := c])
    case TailReturns(c) => s.(calls := Move(s, c, Returned))
    case DeleteEntry(c) =>
      s.(started := s.started - {s.calls[c].id}, calls := Move(s, c, Finished),
         owner := s.owner - {s.calls[c].id})
  }

  predicate Init(s: State) {
    s.started == map[] && s.calls == [] && s.owner == map[]
  }

  predicate Inside(c: Call) {
    c.at.InTail? || c.at.Returned?
  }

  ghost predicate OwnersInside(s: State) {
    forall id | id in s.owner ::
      s.owner[id] < |s.calls| && s.calls[s.owner[id]].id == id && Inside(s.calls[s.owner[id]])
  }

  ghost predicate InsideOwns(s: State) {
    forall c | 0 <= c < |s.calls| && Inside(s.calls[c]) ::
      s.calls[c].id in s.owner && s.owner[s.calls[c].id] == c
  }

  ghost predicate Inv(s: State) {
    s.started.Keys == s.owner.Keys && OwnersInside(s) && InsideOwns(s)
  }

  lemma OwnersStep(s: State, a: Action)
    requires Inv(s) && Can(s, a)
    ensures OwnersInside(Do(s, a)) && Do(s, a).started.Keys == Do(s, a).owner.Keys
  {}

  lemma InsideStep(s: State, a: Action)
    requires Inv(s) && Can(s, a)
    ensures InsideOwns(Do(s, a))
  {}

  lemma InvStep(s: State, a: Action)
    requires Inv(s) && Can(s, a)
    ensures Inv(Do(s, a))
  {
    OwnersStep(s, a);
    InsideStep(s, a);
  }

  ghost predicate StepAt(tr: seq<State>, acts: seq<Action>, i: nat)
    requires |tr| == |acts| + 1 && i < |acts|
  {
    Can(tr[i], acts[i]) && tr[i + 1] == Do(tr[i], acts[i])
  }

  ghost predicate Run(tr: seq<State>, acts: seq<Action>) {
    |tr| == |acts| + 1 && Init(tr[0]) && forall i | 0 <= i < |acts| :: StepAt(tr, acts, i)
  }

  lemma {:induction false} InvRun(tr: seq<State>, acts: seq<Action>, i: nat)
    requires Run(tr, acts) && i < |tr|
    ensures Inv(tr[i])
  {
    if i > 0 {
      assert StepAt(tr, acts, i - 1);
      InvRun(tr, acts, i - 1);
      InvStep(tr[i - 1], acts[i - 1]);
    }
  }

  // At most one call of Tail per container is in progress, whatever the counter
  // race does.
  lemma AtMostOneTail(tr: seq<State>, acts: seq<Action>, i: nat, c: nat, d: nat)
    requires Run(tr, acts) && i < |tr|
    requires c < |tr[i].calls| && tr[i].calls[c].at.InTail?
    requires d < |tr[i].calls| && tr[i].calls[d].at.InTail?
    ensures tr[i].calls[c].id == tr[i].calls[d].id <==> c == d
  {
    InvRun(tr, acts, i);
  }

  // A call may tail exactly when no call for its container is at it: none is in
  // Tail, nor back from it with its entry still to delete.
  lemma AdmittedExactly(tr: seq<State>, acts: seq<Action>, i: nat, c: nat)
    requires Run(tr, acts) && i < |acts| && acts[i] == Check(c) && c < |tr[i].calls|
    ensures c < |tr[i + 1].calls|
    ensures tr[i + 1].calls[c].at.InTail? <==>
            forall d | 0 <= d < |tr[i].calls| && Inside(tr[i].calls[d]) :: tr[i].calls[d].id != tr[i].calls[c].id
    ensures tr[i + 1].calls[c].at.InTail? || tr[i + 1].calls[c].at.Refused?
  {
    assert StepAt(tr, acts, i);
    InvRun(tr, acts, i);
    var id := tr[i].calls[c].id;
    if id in tr[i].started { assert Inside(tr[i].calls[tr[i].owner[id]]); }
  }

  // The counter counts when no other callback comes in between.
  lemma CountsAlone(s: State, c: nat)
    requires Can(s, ReadCounter(c))
    ensures Can(Do(s, ReadCounter(c)), WriteCounter(c))
    ensures Do(Do(s, ReadCounter(c)), WriteCounter(c)).counter == s.counter + 1
  {}

  // An entry is deleted only by the call that made it, and it is there to be
  // deleted.
  lemma DeletedByItsMaker(tr: seq<State>, acts: seq<Action>, i: nat, id: string)
    requires Run(tr, acts) && i < |acts|
    ensures id in tr[i].started && id !in tr[i + 1].started ==>
              id in tr[i].owner && acts[i] == DeleteEntry(tr[i].owner[id])
    ensures acts[i].DeleteEntry? ==>
              acts[i].c < |tr[i].calls| && tr[i].calls[acts[i].c].id in tr[i].owner
              && tr[i].owner[tr[i].calls[acts[i].c].id] == acts[i].c
              && tr[i].calls[acts[i].c].id in tr[i].started
  {
    assert StepAt(tr, acts, i);
    InvRun(tr, acts, i);
  }
}
