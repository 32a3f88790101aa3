// The seekable wrapper around a stream, as one goroutine at a time sees it.
module Seeker {

  // The largest int; a bytes.Buffer never holds more than this many bytes.
  const MAX_INT: int := 0x7FFF_FFFF_FFFF_FFFF

  type bytes = seq<bv8>

  function Min(a: nat, b: nat): nat {
    if a < b then a else b
  }

  // The last k bytes, or all of them if there are fewer.
  function LastBytes(s: bytes, k: nat): bytes {
    s[|s| - Min(k, |s|)..]
  }

  // The end of s, of that length.
  lemma LastBytesAre(s: bytes, k: nat)
    ensures |s| <= k ==> LastBytes(s, k) == s
    ensures |s| > k ==> |LastBytes(s, k)| == k && s == s[..|s| - k] + LastBytes(s, k)
  {}

  class Buffer {
    var data: bytes

    constructor ()
      ensures data == []
    {
      data := [];
    }

    method Write(p: bytes)
      modifies this
      ensures data == old(data) + p
    {
      data := data + p;
    }

    // An empty buffer answers a read of n > 0 bytes with io.EOF.
    method Read(n: nat) returns (p: bytes, eof: bool)
      modifies this
      ensures p == old(data)[..Min(n, |old(data)|)] && data == old(data)[|p|..]
      ensures eof <==> old(data) == [] && n > 0
    {
      eof := |data| == 0 && n > 0;
      p := data[..Min(n, |data|)];
      data := data[|p|..];
    }

    method Next(n: nat)
      modifies this
      ensures data == old(data)[Min(n, |old(data)|)..]
    {
      data := data[Min(n, |data|)..];
    }

    method Reset()
      modifies this
      ensures data == []
    {
      data := [];
    }
  }

  // One result of the underlying reader.
  datatype SourceRead = SourceRead(chunk: bytes, failed: bool)

  // The bytes of all reads up to and including the first that failed.
  function Drained(results: seq<SourceRead>): bytes {
    if results == [] then []
    else if results[0].failed then results[0].chunk
    else results[0].chunk + Drained(results[1..])
  }

  lemma {:induction false} DrainedMore(results: seq<SourceRead>, n: nat)
    requires n < |results| && forall i | 0 <= i < n :: !results[i].failed
    ensures Drained(results[..n + 1]) == Drained(results[..n]) + results[n].chunk
    ensures results[n].failed ==> Drained(results) == Drained(results[..n + 1])
  {
    if n > 0 {
      DrainedMore(results[1..], n - 1);
      assert results[..n + 1][1..] == results[1..][..n];
      assert results[..n][1..] == results[1..][..n - 1];
    }
  }

  // How many broadcasts that takes: one after each successful read that leaves
  // bytes in the buffer, none after the failed one.
  function Signals(held: bytes, results: seq<SourceRead>): nat
    decreases |results|
  {
    if results == [] || results[0].failed then 0
    else (if held + results[0].chunk != [] then 1 else 0) + Signals(held + results[0].chunk, results[1..])
  }

  lemma {:induction false} SignalsMore(held: bytes, results: seq<SourceRead>, n: nat)
    requires n < |results| && forall i | 0 <= i < n :: !results[i].failed
    ensures Signals(held, results[..n + 1]) == Signals(held, results[..n]) +
            if !results[n].failed && held + Drained(results[..n + 1]) != [] then 1 else 0
    ensures results[n].failed ==> Signals(held, results) == Signals(held, results[..n])
    decreases n
  {
    if n > 0 {
      var next := held + results[0].chunk;
      SignalsMore(next, results[1..], n - 1);
      assert results[..n + 1][1..] == results[1..][..n];
      assert results[..n][1..] == results[1..][..n - 1];
      assert next + Drained(results[1..][..n]) == held + Drained(results[..n + 1]);
    }
  }

  datatype SeekResult = Sought | NotImplemented | PastEnd

  class ReadSeekCloseWrapper {
    const buffer: Buffer

    constructor ()
      ensures fresh(buffer) && buffer.data == []
    {
      buffer := new Buffer();
    }

    // Copies the source into the buffer, a last chunk that comes with the error
    // included, and counts its broadcasts: none after that chunk.
    method Drain(results: seq<SourceRead>) returns (exited: bool, broadcasts: nat)
      modifies buffer
      ensures buffer.data == old(buffer.data) + Drained(results)
      ensures exited <==> exists i | 0 <= i < |results| :: results[i].failed
      ensures broadcasts == Signals(old(buffer.data), results)
    {
      exited, broadcasts := false, 0;
      var n := 0;
      while n < |results|
        invariant n <= |results| && forall i | 0 <= i < n :: !results[i].failed
        invariant buffer.data == old(buffer.data) + Drained(results[..n])
        invariant broadcasts == Signals(old(buffer.data), results[..n])
      {
        DrainedMore(results, n);
        SignalsMore(old(buffer.data), results, n);
        if |results[n].chunk| > 0 { buffer.Write(results[n].chunk); }
        if results[n].failed { return true, broadcasts; }
        if |buffer.data| > 0 { broadcasts := broadcasts + 1; }
        n := n + 1;
      }
      assert results[..n] == results;
    }

    // What Read does once it is past the wait.  A Seek that emptied the buffer
    // since then turns the end of the wait into an io.EOF.
    method Read(n: nat) returns (p: bytes, eof: bool, broadcast: bool)
      modifies buffer
      ensures p == old(buffer.data)[..Min(n, |old(buffer.data)|)] && old(buffer.data) == p + buffer.data
      ensures |p| <= n && (|p| < n ==> buffer.data == [])
      ensures eof <==> old(buffer.data) == [] && n > 0
      ensures broadcast <==> |old(buffer.data)| > n
    {
      p, eof := buffer.Read(n);
      broadcast := |buffer.data| > 0;
    }

    // From the end only and never past it; keeps exactly the last -offset bytes.
    // The loop that discards in chunks of less than MAX_INT runs at most once.
    method Seek(offset: int, whence: int) returns (r: SeekResult, ghost passes: nat)
      requires -MAX_INT - 1 <= offset <= MAX_INT && |buffer.data| <= MAX_INT
      modifies buffer
      ensures r == if whence != 2 then NotImplemented else if offset > 0 then PastEnd else Sought
      ensures buffer.data == if r.Sought? then LastBytes(old(buffer.data), -offset) else old(buffer.data)
      ensures r.Sought? && |old(buffer.data)| > -offset ==>
                buffer.data == old(buffer.data)[|old(buffer.data)| + offset..]
      ensures passes <= 1
    {
      passes := 0;
      if whence != 2 { return NotImplemented, 0; }
      if offset > 0 { return PastEnd, 0; }
      if offset == 0 {
        buffer.Reset();
      } else {
        var discard := |buffer.data| + offset;
        while discard > 0
          invariant passes == 0 ==> discard == |old(buffer.data)| + offset && buffer.data == old(buffer.data)
          invariant passes > 0 ==> passes == 1 && discard == 0 && buffer.data == LastBytes(old(buffer.data), -offset)
          invariant discard < MAX_INT
          decreases discard
        {
          // a discard of MAX_INT would make this 0 and never end; offset < 0 rules it out
          var chunkSize := discard % MAX_INT;
          assert chunkSize == discard;
          buffer.Next(chunkSize);
          discard := discard - chunkSize;
          passes := passes + 1;
        }
      }
      r := Sought;
    }
  }
}
