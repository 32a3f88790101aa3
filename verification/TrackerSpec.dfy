// What the offset tracker's operations mean for the plain contents of the cache:
// container id -> file name -> byte offset.  The heap model (Store), the
// sequential classes (TailTracker) and the whole system (Apptail) are all
// related to these functions.
module TrackerSpec {

  type Image = map<string, map<string, int>>

  const INITIAL_OFFSET := 0

  function Registered(img: Image, key: string): Image {
    if key in img then img else img[key := map[]]
  }

  function Initialized(img: Image, key: string, file: string, offset: int): Image {
    if key in img && file !in img[key] then img[key := img[key][file := offset]] else img
  }

  function Updated(img: Image, key: string, file: string, offset: int): Image {
    if key in img && file in img[key] then img[key := img[key][file := offset]] else img
  }

  lemma UpdatedAt(img: Image, key: string, file: string, offset: int, k: string, f: string)
    requires key in img && file in img[key] && k in img && f in img[k]
    ensures k in Updated(img, key, file, offset) && f in Updated(img, key, file, offset)[k]
    ensures Updated(img, key, file, offset)[k][f] ==
            if k == key && f == file then offset else img[k][f]
  {}

  lemma UpdatedShape(img: Image, key: string, file: string, offset: int)
    ensures Updated(img, key, file, offset).Keys == img.Keys
    ensures forall k | k in img :: Updated(img, key, file, offset)[k].Keys == img[k].Keys
  {}

  // Only the last update of a box matters.
  lemma UpdatedTwice(img: Image, key: string, file: string, first: int, second: int)
    ensures Updated(Updated(img, key, file, first), key, file, second) == Updated(img, key, file, second)
  {
    if key in img && file in img[key] {
      assert img[key][file := first][file := second] == img[key][file := second];
    }
  }

  function Removed(img: Image, key: string): Image {
    img - {key}
  }

  // Only the containers in `live` survive a clean-up.
  function Purged(img: Image, live: set<string>): Image {
    map key | key in img && key in live :: img[key]
  }

  // The outcome of GetFileCachedOffset: it dereferences the box of the file
  // without looking whether there is one.
  datatype Lookup = Offset(value: int) | NilDereference

  function CachedOffset(img: Image, key: string, file: string): Lookup {
    if key !in img then Offset(0)
    else if file in img[key] then Offset(img[key][file])
    else NilDereference
  }

  // The content of the state file: absent, not decodable (empty, or torn by a
  // crash in the middle of a write), or an encoded image.
  datatype Durable = Missing | Unreadable | Holds(image: Image)

  // Decoding fills the map it is given: what was there stays unless the image
  // has the same key.  A file that cannot be decoded changes nothing.
  function Loaded(cache: Image, disk: Durable): Image {
    match disk
    case Holds(img) => cache + img
    case _ => cache
  }
}
