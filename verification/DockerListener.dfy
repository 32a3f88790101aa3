// The listener object: who waits for which container, and the loop over the
// docker events that wakes them.
module DockerListener {
  import opened TrackerSpec
  import TailTracker

  const ID_LENGTH := 12

  // Closing a closed channel would panic: that is Close's precondition.
  class Channel {
    var closed: bool

    constructor ()
      ensures !closed
    {
      closed := false;
    }

    method Close()
      requires !closed
      modifies this
      ensures closed
    {
      closed := true;
    }
  }

  // Slicing an id shorter than 12 characters panics, before the length test
  // that follows it in the code can fail.
  datatype Outcome = Done | SliceOutOfRange

  datatype Event = Event(id: string, status: string)

  predicate Stops(e: Event) {
    e.status == "die" || e.status == "kill"
  }

  function StoppedIds(events: seq<Event>): set<string>
    requires forall i | 0 <= i < |events| :: |events[i].id| >= ID_LENGTH
  {
    set i | 0 <= i < |events| && Stops(events[i]) :: events[i].id[..ID_LENGTH]
  }

  // One of the first n events says that the container has ended.
  predicate StoppedIn(events: seq<Event>, n: nat, key: string)
    requires n <= |events| && forall i | 0 <= i < n :: |events[i].id| >= 12
  {
    exists i | 0 <= i < n :: (events[i].status == "die" || events[i].status == "kill") && events[i].id[..12] == key
  }

  class Listener {
    var waiters: map<string, Channel>

    constructor ()
      ensures Valid() && waiters == map[]
    {
      waiters := map[];
    }

    // Channels in the map are pairwise distinct and open.
    ghost predicate Valid()
      reads this, waiters.Values
    {
      && (forall k | k in waiters :: !waiters[k].closed)
      && (forall k, l | k in waiters && l in waiters && k != l :: waiters[k] != waiters[l])
    }

    // The part of BlockUntilContainerStops before the wait on ch.  The channel is
    // entered only if the container has no waiter yet; otherwise nobody will ever
    // close it.
    method AddWaiter(id: string) returns (outcome: Outcome, ch: Channel)
      requires Valid()
      modifies this`waiters
      ensures Valid() && fresh(ch) && !ch.closed
      ensures outcome == if |id| < ID_LENGTH then SliceOutOfRange else Done
      ensures waiters == if |id| < ID_LENGTH || id[..ID_LENGTH] in old(waiters) then old(waiters)
                         else old(waiters)[id[..ID_LENGTH] := ch]
    {
      ch := new Channel();
      if |id| < ID_LENGTH { return SliceOutOfRange, ch; }
      var key := id[..ID_LENGTH];
      if key !in waiters { waiters := waiters[key := ch]; }
      outcome := Done;
    }

    // Handles events until they end or one of them has a short id.  Exactly the
    // waiters whose container stopped are woken, once each.
    method Listen(events: seq<Event>) returns (outcome: Outcome, n: nat)
      requires Valid()
      modifies this`waiters, waiters.Values
      ensures Valid() && n <= |events|
      ensures outcome == if n == |events| then Done else SliceOutOfRange
      ensures n < |events| ==> |events[n].id| < ID_LENGTH
      ensures forall i | 0 <= i < n :: |events[i].id| >= ID_LENGTH
      ensures forall k :: k in waiters <==> k in old(waiters) && !StoppedIn(events, n, k)
      ensures forall k | k in waiters :: waiters[k] == old(waiters)[k]
      ensures forall k | k in old(waiters) :: old(waiters)[k].closed <==> StoppedIn(events, n, k)
    {
      n := 0;
      while n < |events|
        invariant n <= |events| && forall i | 0 <= i < n :: |events[i].id| >= ID_LENGTH
        invariant Valid() && waiters == old(waiters) - StoppedIds(events[..n])
        invariant forall k | k in old(waiters) ::
                    old(waiters)[k].closed <==> k in StoppedIds(events[..n])
      {
        var e := events[n];
        if |e.id| < ID_LENGTH {
          StoppedMeans(events, n);
          return SliceOutOfRange, n;
        }
        StoppedOneMore(events, n);
        var key := e.id[..ID_LENGTH];
        if Stops(e) {
          if key in waiters {
            var ch := waiters[key];
            ch.Close();
            waiters := waiters - {key};
          }
        }
        n := n + 1;
      }
      StoppedMeans(events, n);
      outcome := Done;
    }

    // An empty answer from docker is not taken to mean that nothing is alive.
    method TrackerCleanUp(tracker: TailTracker.Tracker, allContainers: set<string>)
      requires tracker.Valid()
      modifies tracker
      ensures tracker.Valid()
      ensures tracker.Contents == if allContainers == {} then old(tracker.Contents)
                                else Purged(old(tracker.Contents), allContainers)
    {
      if |allContainers| > 0 { tracker.CleanUp(allContainers); }
    }
  }

  // The ids that have a die or kill event.
  lemma StoppedMeans(events: seq<Event>, n: nat)
    requires n <= |events| && forall i | 0 <= i < n :: |events[i].id| >= ID_LENGTH
    ensures forall k :: k in StoppedIds(events[..n]) <==> StoppedIn(events, n, k)
  {
    assert forall i | 0 <= i < n :: events[..n][i] == events[i];
    forall k | StoppedIn(events, n, k) ensures k in StoppedIds(events[..n]) {
      var i :| 0 <= i < n && (events[i].status == "die" || events[i].status == "kill")
        && events[i].id[..12] == k;
      assert Stops(events[..n][i]);
    }
  }

  lemma StoppedOneMore(events: seq<Event>, n: nat)
    requires n < |events| && forall i | 0 <= i <= n :: |events[i].id| >= ID_LENGTH
    ensures StoppedIds(events[..n + 1]) ==
            StoppedIds(events[..n]) + if Stops(events[n]) then {events[n].id[..ID_LENGTH]} else {}
  {
    var more, less := events[..n + 1], events[..n];
    assert forall i | 0 <= i < n :: more[i] == less[i];
    forall k | k in StoppedIds(less) ensures k in StoppedIds(more) {
      var i :| 0 <= i < n && Stops(less[i]) && less[i].id[..ID_LENGTH] == k;
      assert Stops(more[i]) && more[i].id[..ID_LENGTH] == k;
    }
    if Stops(events[n]) {
      assert Stops(more[n]) && more[n].id[..ID_LENGTH] in StoppedIds(more);
    }
  }
}
