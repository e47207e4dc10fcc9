/**
 The virtual-document content provider for a story being streamed in: a cache
 from document key (the virtual URI as a string) to the text received so far,
 and the change events it fires.

 The cache is a value. Each fired event is logged as a `Notification` holding
 the key it carries and the text a listener reading that key at that moment
 would get; the second part is what lets the contracts say that an event is
 only fired once its content can be read.
 */
module StoryCache {

  /** One `onDidChange` event: the key fired, and what reading that key returned when it fired. */
  datatype Notification = Notification(key: string, visible: string)

  /** The provider's state: the per-key cache and every event fired so far, oldest first. */
  datatype Cache = Cache(entries: map<string, string>, fired: seq<Notification>)

  /** A freshly constructed provider. */
  const EmptyCache: Cache := Cache(map[], [])

  /** `provideTextDocumentContent(uri)`: what has arrived so far, or "" for a key never loaded or cleared. */
  function Provide(c: Cache, key: string): string {
    if key in c.entries then c.entries[key] else ""
  }

  /** The first statement of `loadFromFile`: the key's content becomes "" and no event is fired. */
  function StartLoad(c: Cache, key: string): (r: Cache)
    ensures key in r.entries && Provide(r, key) == ""
    ensures r.fired == c.fired
    ensures forall k :: k != key ==> Provide(r, k) == Provide(c, k)
  {
    Cache(c.entries[key := ""], c.fired)
  }

  /** The `data` handler: append the chunk to what the key holds (or to "" if nothing), then fire the key. */
  function AppendChunk(c: Cache, key: string, chunk: string): (r: Cache)
    ensures Provide(r, key) == Provide(c, key) + chunk
    ensures Provide(c, key) <= Provide(r, key)
    ensures r.fired == c.fired + [Notification(key, Provide(r, key))]
    ensures forall k :: k != key ==> Provide(r, k) == Provide(c, k)
  {
    var next := Cache(c.entries[key := Provide(c, key) + chunk], c.fired);
    Cache(next.entries, c.fired + [Notification(key, Provide(next, key))])
  }

  /** `clear(uri)`: drop the key, then fire it once. */
  function Clear(c: Cache, key: string): (r: Cache)
    ensures key !in r.entries && Provide(r, key) == ""
    ensures r.entries.Keys == c.entries.Keys - {key}
    ensures r.fired == c.fired + [Notification(key, "")]
    ensures forall k :: k != key ==> Provide(r, k) == Provide(c, k)
  {
    Cache(c.entries - {key}, c.fired + [Notification(key, "")])
  }

  /**
   A key never loaded, or cleared, reads as "". A chunk arriving after a clear
   starts again from "" (the `?? ""` of the data handler), so the key then reads
   as that chunk alone.
   */
  lemma ReadAbsentKey(c: Cache, key: string, chunk: string)
    ensures Provide(EmptyCache, key) == ""
    ensures Provide(Clear(c, key), key) == ""
    ensures Provide(AppendChunk(Clear(c, key), key, chunk), key) == chunk
  {
  }

  /** The chunks joined in order. */
  function Concat(chunks: seq<string>): string {
    if |chunks| == 0 then "" else Concat(chunks[..|chunks| - 1]) + chunks[|chunks| - 1]
  }

  /** Joining a first chunk to the rest is putting it in front. */
  lemma {:induction false} ConcatCons(chunk: string, rest: seq<string>)
    ensures Concat([chunk] + rest) == chunk + Concat(rest)
    decreases |rest|
  {
    if |rest| > 0 {
      var all := [chunk] + rest;
      assert all[..|all| - 1] == [chunk] + rest[..|rest| - 1];
      ConcatCons(chunk, rest[..|rest| - 1]);
    }
  }

  /** What has been appended after `i` chunks is a prefix of what is there after `j >= i` chunks. */
  lemma {:induction false} ConcatPrefix(chunks: seq<string>, i: nat, j: nat)
    requires i <= j <= |chunks|
    ensures Concat(chunks[..i]) <= Concat(chunks[..j])
    decreases j - i
  {
    if i < j {
      assert chunks[..j][..j - 1] == chunks[..j - 1];
      ConcatPrefix(chunks, i, j - 1);
    }
  }

  /**
   The events a load fires for `chunks`: one per chunk, in order, the i-th
   showing exactly the first i+1 chunks joined.
   */
  function LoadEvents(key: string, chunks: seq<string>): (events: seq<Notification>)
    ensures |events| == |chunks|
    ensures forall i :: 0 <= i < |events| ==> events[i] == Notification(key, Concat(chunks[..i + 1]))
  {
    if |chunks| == 0 then []
    else
      var init := chunks[..|chunks| - 1];
      assert forall j :: 1 <= j <= |init| ==> init[..j] == chunks[..j];
      assert chunks[..|chunks|] == chunks;
      LoadEvents(key, init) + [Notification(key, Concat(chunks))]
  }

  /** How the read stream ended: `end` (the promise resolves) or `error` (the promise rejects). */
  datatype Ending = EndOfStream | ReadError

  /** The chunks the read stream delivered, in order, and how it ended. */
  datatype Stream = Stream(chunks: seq<string>, ending: Ending)

  /** The settled state of the promise `loadFromFile` returns. */
  datatype LoadOutcome = Resolved | Rejected

  /**
   `loadFromFile` run to completion with no other call on the provider in
   between: reset the key, append and fire once per chunk, and settle according
   to how the stream ended. A read error keeps what was appended before it.
   */
  method LoadFromFile(c: Cache, key: string, stream: Stream) returns (r: Cache, outcome: LoadOutcome)
    ensures Provide(r, key) == Concat(stream.chunks)
    ensures r.fired == c.fired + LoadEvents(key, stream.chunks)
    ensures forall k :: k != key ==> Provide(r, k) == Provide(c, k)
    ensures outcome == Resolved <==> stream.ending == EndOfStream
  {
    var chunks := stream.chunks;
    r := StartLoad(c, key);
    var i := 0;
    while i < |chunks|
      invariant 0 <= i <= |chunks|
      invariant Provide(r, key) == Concat(chunks[..i])
      invariant r.fired == c.fired + LoadEvents(key, chunks[..i])
      invariant forall k :: k != key ==> Provide(r, k) == Provide(c, k)
    {
      assert chunks[..i + 1][..i] == chunks[..i];
      r := AppendChunk(r, key, chunks[i]);
      i := i + 1;
    }
    assert chunks[..i] == chunks;
    outcome := if stream.ending == EndOfStream then Resolved else Rejected;
  }

  /**
   The chunks a read stream with the given `highWaterMark` delivers for a
   source: full-size chunks in order, the last one possibly shorter.
   */
  function SplitChunks(source: string, size: nat): (chunks: seq<string>)
    requires size > 0
    ensures Concat(chunks) == source
    ensures forall i :: 0 <= i < |chunks| ==> 0 < |chunks[i]| <= size
    ensures forall i :: 0 <= i < |chunks| - 1 ==> |chunks[i]| == size
    decreases |source|
  {
    if |source| == 0 then []
    else if |source| <= size then [source]
    else
      var rest := SplitChunks(source[size..], size);
      ConcatCons(source[..size], rest);
      [source[..size]] + rest
  }

  /** A source of length L read with a `highWaterMark` of C arrives in ceil(L / C) chunks, so that many events fire. */
  lemma {:induction false} ChunkCount(source: string, size: nat)
    requires size > 0
    ensures |SplitChunks(source, size)| == (|source| + size - 1) / size
    decreases |source|
  {
    var n := |source|;
    if n == 0 {
      DivUnique(size - 1, size, 0, size - 1);
    } else {
      DivShift(n - 1, size);
      if n <= size {
        assert SplitChunks(source, size) == [source];
        DivUnique(n - 1, size, 0, n - 1);
      } else {
        var rest := source[size..];
        assert SplitChunks(source, size) == [source[..size]] + SplitChunks(rest, size);
        ChunkCount(rest, size);
        assert |rest| + size - 1 == n - 1;
      }
    }
  }

  /**
   A whole file streamed in with chunk size C and no read error: the key ends
   up holding the file, ceil(L / C) events fire for the key, each showing a
   prefix of the file, the last showing all of it, and the promise resolves.
   */
  method LoadWholeFile(c: Cache, key: string, source: string, chunkSize: nat) returns (r: Cache, outcome: LoadOutcome)
    requires chunkSize > 0
    ensures Provide(r, key) == source
    ensures |r.fired| == |c.fired| + (|source| + chunkSize - 1) / chunkSize
    ensures r.fired[..|c.fired|] == c.fired
    ensures forall i :: |c.fired| <= i < |r.fired| ==> r.fired[i].key == key && r.fired[i].visible <= source
    ensures |source| > 0 ==> r.fired[|r.fired| - 1] == Notification(key, source)
    ensures forall k :: k != key ==> Provide(r, k) == Provide(c, k)
    ensures outcome == Resolved
  {
    var chunks := SplitChunks(source, chunkSize);
    ChunkCount(source, chunkSize);
    r, outcome := LoadFromFile(c, key, Stream(chunks, EndOfStream));
    assert chunks[..|chunks|] == chunks;
    forall i | |c.fired| <= i < |r.fired|
      ensures r.fired[i].key == key && r.fired[i].visible <= source
    {
      var j := i - |c.fired|;
      assert r.fired[i] == LoadEvents(key, chunks)[j];
      ConcatPrefix(chunks, j + 1, |chunks|);
    }
  }

  /** Adding the divisor once adds one to the quotient. */
  lemma DivShift(x: nat, d: nat)
    requires d > 0
    ensures (x + d) / d == x / d + 1
  {
    var q := x / d;
    assert x == q * d + x % d;
    assert x + d == (q + 1) * d + x % d;
    DivUnique(x + d, d, q + 1, x % d);
  }

  /** Euclidean division has one quotient: `q * d + r` with `0 <= r < d` divides to `q`. */
  lemma DivUnique(x: int, d: nat, q: int, r: int)
    requires d > 0 && 0 <= r < d && x == q * d + r
    ensures x / d == q
  {
    var q' := x / d;
    var r' := x % d;
    assert x == q' * d + r';
    assert (q - q') * d == r' - r;
    if q > q' {
      MulAtLeast(q - q', d);
    } else if q' > q {
      MulAtLeast(q' - q, d);
    }
  }

  lemma MulAtLeast(a: int, d: nat)
    requires a >= 1
    ensures a * d >= d
  {
    assert a * d == (a - 1) * d + d;
  }
}
