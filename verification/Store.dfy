// The tracker and its state file as seen by many goroutines at once.
//
// Memory is explicit: the cache maps a container id to a node, a node maps a
// file name to a box, a box holds an offset.  Nodes and boxes are never reused,
// so a node that left the cache is still there for whoever looked it up.
// `mux` is the tracker's mutex together with what its holder is doing; storing
// an offset does not take it.  Committing is two separate critical sections:
// encoding under `mux`, writing under the storage's write lock (`writer`).
module Store {
  import opened Options
  import opened TrackerSpec

  datatype Node = Node(key: string, kids: map<string, nat>)

  datatype Box = Box(node: nat, file: string, value: int)

  datatype Mux =
    | Booting                                      // a fresh process, before LoadTailers
    | Loading(source: Image)                       // LoadTailers is decoding the state file
    | Free
    | Encoding(got: map<(string, string), int>)    // getBuffer has read these boxes so far
    | Cleaning(doomed: set<string>)                // CleanUp still has to delete these ids

  datatype State = State(
    nodes: seq<Node>,
    boxes: seq<Box>,
    cache: map<string, nat>,
    mux: Mux,
    pending: map<nat, Image>,     // images taken by getBuffer and not yet written
    writer: Option<nat>,          // the commit that holds the write lock
    disk: Durable,
    author: Option<nat>,          // the commit whose image was written last
    tickets: nat,                 // number of images taken so far
    taken: set<Image>)            // history: every image ever taken

  datatype Action =
    | LoadBegin
    | LoadKey(key: string)
    | LoadChild(key: string, file: string)
    | LoadEnd
    | Register(key: string)
    | InitChild(key: string, file: string, offset: int)
    | StoreBox(node: nat, file: string, offset: int)
    | Delete(key: string)
    | CleanBegin(live: set<string>)
    | CleanDelete(key: string)
    | CleanEnd
    | EncodeBegin
    | EncodeBox(key: string, file: string)
    | EncodeEnd
    | WriteBegin(commit: nat)
    | WriteEnd
    | Crash

  function Kids(s: State, key: string): map<string, nat> {
    if key in s.cache && s.cache[key] < |s.nodes| then s.nodes[s.cache[key]].kids else map[]
  }

  function Value(s: State, box: nat): int {
    if box < |s.boxes| then s.boxes[box].value else 0
  }

  // The plain contents of the cache.
  function View(s: State): Image {
    map key | key in s.cache ::
      map file | file in Kids(s, key) :: Value(s, Kids(s, key)[file])
  }

  predicate SameShape(s: State, img: Image) {
    img.Keys == s.cache.Keys && forall key | key in img :: img[key].Keys == Kids(s, key).Keys
  }

  function Encoded(s: State, got: map<(string, string), int>): Image
    requires AllRead(s, got)
  {
    map key | key in s.cache :: map file | file in Kids(s, key) :: got[(key, file)]
  }

  predicate AllRead(s: State, got: map<(string, string), int>) {
    forall key, file | key in s.cache && file in Kids(s, key) :: (key, file) in got
  }

  // --- the steps ---

  predicate Running(s: State) {
    !s.mux.Booting? && !s.mux.Loading?
  }

  predicate Can(s: State, a: Action) {
    match a
    case LoadBegin => s.mux.Booting?
    case LoadKey(key) => s.mux.Loading? && key in s.mux.source && key !in s.cache
    case LoadChild(key, file) =>
      s.mux.Loading? && key in s.mux.source && key in s.cache
      && file in s.mux.source[key] && file !in Kids(s, key)
    case LoadEnd =>
      s.mux.Loading? && forall key | key in s.mux.source ::
        key in s.cache && s.mux.source[key].Keys <= Kids(s, key).Keys
    case Register(_) => s.mux.Free?
    case InitChild(_, _, _) => s.mux.Free?
    case StoreBox(node, file, _) => Running(s) && node < |s.nodes| && file in s.nodes[node].kids
    case Delete(_) => s.mux.Free?
    case CleanBegin(live) => s.mux.Free? && live != {}
    case CleanDelete(key) => s.mux.Cleaning? && key in s.mux.doomed
    case CleanEnd => s.mux.Cleaning? && s.mux.doomed == {}
    case EncodeBegin => s.mux.Free?
    case EncodeBox(key, file) =>
      s.mux.Encoding? && key in s.cache && file in Kids(s, key) && (key, file) !in s.mux.got
    case EncodeEnd => s.mux.Encoding? && AllRead(s, s.mux.got)
    case WriteBegin(commit) => s.writer.None? && commit in s.pending
    case WriteEnd => s.writer.Some? && s.writer.value in s.pending
    case Crash => true
  }

  function Do(s: State, a: Action): State
    requires Can(s, a)
  {
    match a
    case LoadBegin => s.(mux := Loading(if s.disk.Holds? then s.disk.image else map[]))
    case LoadKey(key) => AddNode(s, key)
    case LoadChild(key, file) => AddBox(s, key, file, s.mux.source[key][file])
    case LoadEnd => s.(mux := Free)
    case Register(key) => if key in s.cache then s else AddNode(s, key)
    case InitChild(key, file, offset) =>
      if key in s.cache && file !in Kids(s, key) then AddBox(s, key, file, offset) else s
    case StoreBox(node, file, offset) => SetBox(s, s.nodes[node].kids[file], offset)
    case Delete(key) => s.(cache := s.cache - {key})
    case CleanBegin(live) => s.(mux := Cleaning(s.cache.Keys - live))
    case CleanDelete(key) => s.(cache := s.cache - {key}, mux := Cleaning(s.mux.doomed - {key}))
    case CleanEnd => s.(mux := Free)
    case EncodeBegin => s.(mux := Encoding(map[]))
    case EncodeBox(key, file) =>
      s.(mux := Encoding(s.mux.got[(key, file) := Value(s, Kids(s, key)[file])]))
    case EncodeEnd =>
      var img := Encoded(s, s.mux.got);
      s.(mux := Free, pending := s.pending[s.tickets := img], tickets := s.tickets + 1,
         taken := s.taken + {img})
    case WriteBegin(commit) => s.(writer := Some(commit), disk := Unreadable)
    case WriteEnd =>
      s.(writer := None, disk := Holds(s.pending[s.writer.value]), author := s.writer,
         pending := s.pending - {s.writer.value})
    case Crash => s.(cache := map[], mux := Booting, pending := map[], writer := None)
  }

  function AddNode(s: State, key: string): State {
    s.(nodes := s.nodes + [Node(key, map[])], cache := s.cache[key := |s.nodes|])
  }

  function AddBox(s: State, key: string, file: string, offset: int): State
    requires key in s.cache
  {
    var n := s.cache[key];
    if n < |s.nodes| then
      s.(nodes := s.nodes[n := s.nodes[n].(kids := s.nodes[n].kids[file := |s.boxes|])],
         boxes := s.boxes + [Box(n, file, offset)])
    else s
  }

  function SetBox(s: State, box: nat, offset: int): State {
    if box < |s.boxes| then s.(boxes := s.boxes[box := s.boxes[box].(value := offset)]) else s
  }

  // The first process ever: nothing in memory, any content in the state file.
  predicate Init(s: State) {
    s.nodes == [] && s.boxes == [] && s.cache == map[] && s.mux.Booting?
    && s.pending == map[] && s.writer.None? && s.author.None? && s.tickets == 0 && s.taken == {}
  }

  ghost predicate Follows(s: State, a: Action, t: State) {
    Can(s, a) && t == Do(s, a)
  }

  ghost predicate StepAt(tr: seq<State>, acts: seq<Action>, i: nat)
    requires |tr| == |acts| + 1 && i < |acts|
  {
    Follows(tr[i], acts[i], tr[i + 1])
  }

  ghost predicate Run(tr: seq<State>, acts: seq<Action>) {
    |tr| == |acts| + 1 && forall i | 0 <= i < |acts| :: StepAt(tr, acts, i)
  }

  // --- the invariant ---

  // Every box knows the node and file it was made for.
  ghost predicate BoxesTagged(s: State) {
    forall n, file | 0 <= n < |s.nodes| && file in s.nodes[n].kids ::
      var b := s.nodes[n].kids[file];
      b < |s.boxes| && s.boxes[b].node == n && s.boxes[b].file == file
  }

  // Every cached node was registered under the key that leads to it.
  ghost predicate CacheKeyed(s: State) {
    forall key | key in s.cache :: s.cache[key] < |s.nodes| && s.nodes[s.cache[key]].key == key
  }

  ghost predicate MutexInv(s: State) {
    match s.mux
    case Booting => s.cache == map[]
    case Loading(img) =>
      (s.disk == Holds(img) || img == map[]) && s.cache.Keys <= img.Keys
    case Encoding(got) => forall p | p in got :: p.0 in s.cache && p.1 in Kids(s, p.0)
    case Free => true
    case Cleaning(_) => true
  }

  ghost predicate CommitInv(s: State) {
    && (!Running(s) ==> s.pending == map[] && s.writer.None?)
    && (forall c | c in s.pending :: c < s.tickets && s.pending[c] in s.taken)
    && (s.author.Some? ==> s.author.value < s.tickets)
    && (s.writer.Some? ==> s.writer.value in s.pending)
  }

  ghost predicate Inv(s: State) {
    BoxesTagged(s) && CacheKeyed(s) && MutexInv(s) && CommitInv(s)
  }

  lemma InvInit(s: State)
    requires Init(s)
    ensures Inv(s)
  {}

  lemma TaggedStep(s: State, a: Action)
    requires Inv(s) && Can(s, a)
    ensures BoxesTagged(Do(s, a))
  {}

  lemma KeyedStep(s: State, a: Action)
    requires Inv(s) && Can(s, a)
    ensures CacheKeyed(Do(s, a))
  {}

  lemma MutexStep(s: State, a: Action)
    requires Inv(s) && Can(s, a)
    ensures MutexInv(Do(s, a))
  {}

  lemma CommitStep(s: State, a: Action)
    requires Inv(s) && Can(s, a)
    ensures CommitInv(Do(s, a))
  {}

  lemma InvStep(s: State, a: Action)
    requires Inv(s) && Can(s, a)
    ensures Inv(Do(s, a))
  {
    TaggedStep(s, a);
    KeyedStep(s, a);
    MutexStep(s, a);
    CommitStep(s, a);
  }

  lemma {:induction false} InvRun(tr: seq<State>, acts: seq<Action>, i: nat)
    requires Run(tr, acts) && Init(tr[0]) && i < |tr|
    ensures Inv(tr[i])
  {
    if i == 0 {
      InvInit(tr[0]);
    } else {
      assert StepAt(tr, acts, i - 1);
      InvRun(tr, acts, i - 1);
      InvStep(tr[i - 1], acts[i - 1]);
    }
  }
}
