// The offset tracker and its state file as the objects they are in one
// goroutine: a map of nodes, nodes of boxes, boxes of offsets.
module TailTracker {
  import opened TrackerSpec

  // What the file system makes of a write.
  datatype WriteOutcome = Written | ChmodFailed | WriteFailed(left: Durable)

  class FileStorage {
    var disk: Durable

    constructor (disk: Durable)
      ensures this.disk == disk
    {
      this.disk := disk;
    }

    method Write(buf: Image, outcome: WriteOutcome) returns (ok: bool)
      modifies this
      ensures ok == outcome.Written?
      ensures disk == if outcome.WriteFailed? then outcome.left else Holds(buf)
    {
      if outcome.WriteFailed? {
        disk := outcome.left;
        return false;
      }
      disk := Holds(buf);
      ok := outcome.Written?;
    }

    // A missing file is created, empty, and is not decoded.
    method Load() returns (content: Durable)
      modifies this
      ensures content == old(disk)
      ensures disk == if old(disk).Missing? then Unreadable else old(disk)
    {
      content := disk;
      if disk.Missing? { disk := Unreadable; }
    }
  }

  class BoxedInt64 {
    var V: int

    constructor (v: int)
      ensures V == v
    {
      V := v;
    }
  }

  // The boxes of a container's files.
  type TailNode = map<string, BoxedInt64>

  // Keys of the first set that are not in the second.
  method GetInvalidInstances(dockerIds: set<string>, allInstances: set<string>) returns (invalid: set<string>)
    ensures invalid == dockerIds - allInstances
  {
    invalid := {};
    var todo := dockerIds;
    while todo != {}
      invariant todo <= dockerIds
      invariant invalid == (dockerIds - todo) - allInstances
      decreases |todo|
    {
      var id :| id in todo;
      todo := todo - {id};
      if id !in allInstances { invalid := invalid + {id}; }
    }
  }

  ghost function BoxesOf(m: map<string, TailNode>): set<BoxedInt64> {
    set k, f | k in m && f in m[k] :: m[k][f]
  }

  // No box is reachable by two paths: each has one owner.
  ghost predicate Separate(m: map<string, TailNode>, owner: map<BoxedInt64, (string, string)>) {
    forall k, f | k in m && f in m[k] :: m[k][f] in owner && owner[m[k][f]] == (k, f)
  }

  // The boxes hold exactly the plain contents img.
  ghost predicate Shows(m: map<string, TailNode>, img: Image)
    reads BoxesOf(m)
  {
    && img.Keys == m.Keys
    && (forall k | k in m :: img[k].Keys == m[k].Keys)
    && (forall k, f | k in m && f in m[k] :: img[k][f] == m[k][f].V)
  }

  // Adding a box that is not yet reachable, under a file the node does not have.
  lemma OneBoxMore(m: map<string, TailNode>, owner: map<BoxedInt64, (string, string)>, img: Image,
                   key: string, file: string, box: BoxedInt64)
    requires Separate(m, owner) && Shows(m, img)
    requires key in m && file !in m[key] && box !in BoxesOf(m)
    ensures Separate(m[key := m[key][file := box]], owner[box := (key, file)])
    ensures Shows(m[key := m[key][file := box]], img[key := img[key][file := box.V]])
  {
    forall k, f | k in m && f in m[k] ensures m[k][f] != box { assert m[k][f] in BoxesOf(m); }
  }

  lemma OverriddenMore(before: Image, some: Image, key: string, kids: map<string, int>)
    ensures (before + some)[key := kids] == before + some[key := kids]
  {}

  class Tracker {
    const storage: FileStorage
    var instances: map<string, TailNode>
    ghost var Contents: Image          // what the boxes amount to
    ghost var owner: map<BoxedInt64, (string, string)>

    constructor (storage: FileStorage)
      ensures Valid() && Contents == map[] && this.storage == storage
    {
      this.storage := storage;
      instances := map[];
      Contents, owner := map[], map[];
    }

    ghost function Boxes(): set<BoxedInt64>
      reads this
    {
      BoxesOf(instances)
    }

    ghost predicate Valid()
      reads this, Boxes()
    {
      Separate(instances, owner) && Shows(instances, Contents)
    }

    method RegisterInstance(key: string)
      requires Valid()
      modifies this
      ensures Valid() && Contents == Registered(old(Contents), key)
      ensures instances == if key in old(instances) then old(instances) else old(instances)[key := map[]]
    {
      if key !in instances { instances := instances[key := map[]]; }
      Contents := Registered(Contents, key);
    }

    method IsInstanceRegistered(key: string) returns (exist: bool)
      requires Valid()
      ensures exist <==> key in Contents
    {
      exist := key in instances;
    }

    method IsChildNodeInitialized(key: string, file: string) returns (exist: bool)
      requires Valid()
      ensures exist <==> key in Contents && file in Contents[key]
    {
      exist := false;
      if key in instances {
        if file in instances[key] { exist := true; }
      }
    }

    method InitializeChildNode(key: string, file: string, offset: int)
      requires Valid()
      modifies this
      ensures Valid() && Contents == Initialized(old(Contents), key, file, offset)
      ensures instances.Keys == old(instances).Keys
      ensures key in old(Contents) && file !in old(Contents)[key] ==>
                CachedOffset(Contents, key, file) == Offset(offset)
    {
      if key in instances {
        var tailNode := instances[key];
        if file !in tailNode {
          var box := new BoxedInt64(offset);
          OneBoxMore(instances, owner, Contents, key, file, box);
          instances := instances[key := tailNode[file := box]];
          owner := owner[box := (key, file)];
          Contents := Contents[key := Contents[key][file := offset]];
        }
      }
    }

    // The nil dereference of a file that the node does not have is an outcome.
    method GetFileCachedOffset(key: string, file: string) returns (r: Lookup)
      requires Valid()
      ensures r == CachedOffset(Contents, key, file)
      ensures key !in Contents ==> r == Offset(0)
      ensures key in Contents && file in Contents[key] ==> r == Offset(Contents[key][file])
      ensures key in Contents && file !in Contents[key] ==> r == NilDereference
    {
      if key in instances {
        var tailNode := instances[key];
        if file !in tailNode { return NilDereference; }
        return Offset(tailNode[file].V);
      }
      return Offset(0);
    }

    // Writes one box and nothing else.
    method Update(key: string, file: string, offset: int)
      requires Valid()
      modifies this`Contents, Boxes()
      ensures Valid() && Contents == Updated(old(Contents), key, file, offset)
      ensures key in old(Contents) && file in old(Contents)[key] ==> CachedOffset(Contents, key, file) == Offset(offset)
    {
      if key in instances {
        var tailNode := instances[key];
        if file in tailNode {
          tailNode[file].V := offset;
          Contents := Contents[key := Contents[key][file := offset]];
        }
      }
    }

    // The loop of CleanUp over the ids to remove.
    method DeleteAll(keys: set<string>)
      modifies this`instances
      ensures instances == old(instances) - keys
    {
      var todo := keys;
      while todo != {}
        invariant todo <= keys && instances == old(instances) - (keys - todo)
        decreases |todo|
      {
        var key :| key in todo;
        todo := todo - {key};
        instances := instances - {key};
      }
    }

    // The live containers keep their nodes; the others are gone.
    method CleanUp(validIds: set<string>)
      requires Valid()
      modifies this
      ensures Valid() && Contents == Purged(old(Contents), validIds)
      ensures instances == map k | k in old(instances) && k in validIds :: old(instances)[k]
    {
      var invalid := GetInvalidInstances(instances.Keys, validIds);
      DeleteAll(invalid);
      Contents := Purged(Contents, validIds);
    }

    // What the encoder is given; encoding and decoding the same image is taken
    // to be the identity.
    method GetBuffer() returns (img: Image)
      requires Valid()
      ensures img == Contents
    {
      img := map k | k in instances :: map f | f in instances[k] :: instances[k][f].V;
      assert forall k | k in instances :: img[k] == Contents[k];
    }

    method Commit(outcome: WriteOutcome) returns (ok: bool)
      requires Valid()
      modifies storage
      ensures Valid() && ok == outcome.Written?
      ensures storage.disk == if outcome.WriteFailed? then outcome.left else Holds(Contents)
    {
      var img := GetBuffer();
      ok := storage.Write(img, outcome);
    }

    // ok is false where the process would end itself.
    method Remove(key: string, outcome: WriteOutcome) returns (ok: bool)
      requires Valid()
      modifies this, storage
      ensures Valid() && Contents == Removed(old(Contents), key)
      ensures ok == outcome.Written?
      ensures storage.disk == if outcome.WriteFailed? then outcome.left else Holds(Contents)
    {
      instances := instances - {key};
      Contents := Removed(Contents, key);
      ok := Commit(outcome);
    }

    // Decodes one container of the image.
    method Decode(key: string, img: map<string, int>)
      returns (node: TailNode, ghost owners: map<BoxedInt64, (string, string)>)
      ensures node.Keys == img.Keys
      ensures forall f | f in img :: fresh(node[f]) && node[f].V == img[f]
      ensures forall f | f in img :: node[f] in owners && owners[node[f]] == (key, f)
      ensures forall b | b in owners :: fresh(b)
    {
      node, owners := map[], map[];
      var todo := img.Keys;
      while todo != {}
        invariant todo <= img.Keys && node.Keys == img.Keys - todo
        invariant forall f | f in node :: fresh(node[f]) && node[f].V == img[f]
        invariant forall f | f in node :: node[f] in owners && owners[node[f]] == (key, f)
        invariant forall b | b in owners :: fresh(b)
        decreases |todo|
      {
        var f :| f in todo;
        todo := todo - {f};
        var box := new BoxedInt64(img[f]);
        node := node[f := box];
        owners := owners[box := (key, f)];
      }
    }

    method AddDecoded(key: string, kids: map<string, int>)
      requires Valid()
      modifies this
      ensures Valid() && Contents == old(Contents)[key := kids]
    {
      ghost var owners;
      var node;
      node, owners := Decode(key, kids);
      instances := instances[key := node];
      owner := owner + owners;
      Contents := Contents[key := kids];
    }

    method DecodeAll(img: Image)
      requires Valid()
      modifies this
      ensures Valid() && Contents == old(Contents) + img
    {
      ghost var before := Contents;
      ghost var some: Image := map[];
      var todo := img.Keys;
      while todo != {}
        invariant todo <= img.Keys && Valid() && Contents == before + some
        invariant some.Keys == img.Keys - todo && forall k | k in some :: some[k] == img[k]
        decreases |todo|
      {
        var key :| key in todo;
        todo := todo - {key};
        OverriddenMore(before, some, key, img[key]);
        AddDecoded(key, img[key]);
        some := some[key := img[key]];
      }
      assert some == img;
    }

    // A state file that cannot be decoded changes nothing.
    method LoadTailers()
      requires Valid()
      modifies this, storage
      ensures Valid() && Contents == Loaded(old(Contents), old(storage.disk))
      ensures old(storage.disk).Holds? ==>
                forall k | k in Contents ::
                  Contents[k] == if k in old(storage.disk).image then old(storage.disk).image[k] else old(Contents)[k]
      ensures storage.disk == if old(storage.disk).Missing? then Unreadable else old(storage.disk)
    {
      var content := storage.Load();
      if content.Holds? { DecodeAll(content.image); }
    }
  }

  // What a fresh process sees after a successful commit is what the old one had.
  method CommitAndRestart(tracker: Tracker) returns (restarted: Tracker)
    requires tracker.Valid()
    modifies tracker.storage
    ensures restarted.Valid() && restarted.Contents == tracker.Contents == old(tracker.Contents)
  {
    var ok := tracker.Commit(Written);
    restarted := new Tracker(tracker.storage);
    assert map[] + tracker.Contents == tracker.Contents;
    restarted.LoadTailers();
  }

  // --- the event loop of a tailer ---

  datatype TellResult = TellOk(offset: int) | TellError

  datatype TailEvent = Line(text: string, tell: TellResult) | LinesClosed | StopSignal

  // The lines handled before the loop ends.
  function Handled(events: seq<TailEvent>): seq<TailEvent> {
    if events == [] || !events[0].Line? then [] else [events[0]] + Handled(events[1..])
  }

  // On an error Tell's offset is 0, and 0 is what gets stored.
  function ToldOffset(e: TailEvent): int
    requires e.Line?
  {
    if e.tell.TellOk? then e.tell.offset else 0
  }

  lemma {:induction false} HandledPrefix(events: seq<TailEvent>, n: nat)
    requires n <= |events| && forall i | 0 <= i < n :: events[i].Line?
    requires n == |events| || !events[n].Line?
    ensures Handled(events) == events[..n]
  {
    if n > 0 {
      HandledPrefix(events[1..], n - 1);
      assert [events[0]] + events[1..][..n - 1] == events[..n];
    }
  }

  // The offset that Tell gave with the last line is there, 0 if Tell failed.
  predicate LeavesLast(lines: seq<TailEvent>, img: Image, key: string, file: string)
    requires lines != [] && lines[|lines| - 1].Line?
  {
    && key in img && file in img[key]
    && match lines[|lines| - 1].tell {
         case TellOk(offset) => img[key][file] == offset
         case TellError => img[key][file] == 0
       }
  }

  lemma LastIsLeft(lines: seq<TailEvent>, img: Image, key: string, file: string)
    requires lines != [] && lines[|lines| - 1].Line?
    ensures key in img && file in img[key] ==>
              LeavesLast(lines, Updated(img, key, file, ToldOffset(lines[|lines| - 1])), key, file)
  {}

  // Every line up to the stop is published, in order, each after its offset was
  // put into the tracker; the box is left with the offset of the last of them.
  method ReadFromTail(tracker: Tracker, key: string, file: string, events: seq<TailEvent>)
    returns (published: seq<string>)
    requires tracker.Valid()
    modifies tracker`Contents, tracker.Boxes()
    ensures tracker.Valid()
    ensures |published| == |Handled(events)|
    ensures forall i | 0 <= i < |published| :: Handled(events)[i].Line? && published[i] == Handled(events)[i].text
    ensures tracker.Contents ==
            if Handled(events) == [] then old(tracker.Contents)
            else Updated(old(tracker.Contents), key, file, ToldOffset(Handled(events)[|Handled(events)| - 1]))
    ensures Handled(events) != [] && key in old(tracker.Contents) && file in old(tracker.Contents)[key] ==>
              LeavesLast(Handled(events), tracker.Contents, key, file)
  {
    published := [];
    var n := 0;
    while n < |events| && events[n].Line?
      invariant n <= |events| && |published| == n
      invariant tracker.Valid() && tracker.Boxes() == old(tracker.Boxes())
      invariant forall i | 0 <= i < n :: events[i].Line? && published[i] == events[i].text
      invariant tracker.Contents ==
                if n == 0 then old(tracker.Contents)
                else Updated(old(tracker.Contents), key, file, ToldOffset(events[n - 1]))
    {
      if n > 0 {
        UpdatedTwice(old(tracker.Contents), key, file, ToldOffset(events[n - 1]), ToldOffset(events[n]));
      }
      tracker.Update(key, file, ToldOffset(events[n]));
      published := published + [events[n].text];
      n := n + 1;
    }
    HandledPrefix(events, n);
    if Handled(events) != [] { LastIsLeft(Handled(events), old(tracker.Contents), key, file); }
  }
}
