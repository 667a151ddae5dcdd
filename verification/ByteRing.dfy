/**
 The plain byte ring: byte `j` of a stream goes to offset `(start + j) mod size`, and an offset
 holds the last byte that was mapped to it.
 */
module ByteRing {
  import opened Tables

  function RingPos(start: nat, size: nat, n: nat): (pos: nat)
    requires size > 0
    ensures pos < size
  {
    (start + n) % size
  }

  /** The byte at offset `o` of a file; past its end a file reads as zeros once it is extended. */
  function At(contents: seq<Byte>, o: nat): Byte {
    if o < |contents| then contents[o] else 0
  }

  /** The last of the first `n` stream bytes mapped to offset `o`, or what was there before. */
  ghost function Cell(before: seq<Byte>, start: nat, size: nat, stream: seq<Byte>, n: nat, o: nat): Byte
    requires size > 0 && n <= |stream|
  {
    if n == 0 then At(before, o)
    else if RingPos(start, size, n - 1) == o then stream[n - 1]
    else Cell(before, start, size, stream, n - 1, o)
  }

  /** `contents` is the ring image of the first `n` bytes of `stream`. */
  ghost predicate IsRingImage(contents: seq<Byte>, before: seq<Byte>, start: nat, size: nat,
                              stream: seq<Byte>, n: nat)
    requires size > 0 && n <= |stream|
  {
    forall o: nat :: o < size ==> At(contents, o) == Cell(before, start, size, stream, n, o)
  }

  lemma MultiplesApart(q: int, p: int, size: int)
    requires q > p && size >= 0
    ensures q * size >= p * size + size
  {
    assert (q - p - 1) * size >= 0;
  }

  lemma QuotientsOrdered(size: int, q: int, r: int, p: int, s: int)
    requires 0 <= r < size && 0 <= s < size && q * size + r == p * size + s
    ensures q <= p
  {
    if q > p {
      MultiplesApart(q, p, size);
      assert false;
    }
  }

  lemma ModUnique(x: int, q: int, r: int, size: int)
    requires 0 <= r < size && x == q * size + r
    ensures x % size == r
  {
    assert x == x / size * size + x % size;
    QuotientsOrdered(size, q, r, x / size, x % size);
    QuotientsOrdered(size, x / size, x % size, q, r);
  }

  /** Adding less than one period moves the remainder by that much, at most once around. */
  lemma ModShift(x: nat, k: nat, size: nat)
    requires size > 0 && k <= size
    ensures (x + k) % size == if x % size + k < size then x % size + k else x % size + k - size
  {
    var q, r := x / size, x % size;
    assert x == q * size + r;
    if r + k < size {
      ModUnique(x + k, q, r + k, size);
    } else {
      assert (q + 1) * size == q * size + size;
      ModUnique(x + k, q + 1, r + k - size, size);
    }
  }

  /** Advancing up to the end of the ring; reaching it goes back to the front. */
  lemma RingPosStep(start: nat, size: nat, n: nat, k: nat)
    requires size > 0 && RingPos(start, size, n) + k <= size
    ensures RingPos(start, size, n + k) ==
            if RingPos(start, size, n) + k == size then 0 else RingPos(start, size, n) + k
  {
    ModShift(start + n, k, size);
  }

  /** Mapping `k` bytes that do not cross the end of the ring overwrites one block. */
  lemma {:induction false} CellBlock(before: seq<Byte>, start: nat, size: nat, stream: seq<Byte>,
                                     n: nat, k: nat, o: nat)
    requires size > 0 && n + k <= |stream| && o < size
    requires RingPos(start, size, n) + k <= size
    ensures
      var c := RingPos(start, size, n);
      Cell(before, start, size, stream, n + k, o) ==
      if c <= o < c + k then stream[n + (o - c)] else Cell(before, start, size, stream, n, o)
  {
    if k > 0 {
      CellBlock(before, start, size, stream, n, k - 1, o);
      RingPosStep(start, size, n, k - 1);
    }
  }

  /** Later stream bytes do not matter. */
  lemma {:induction false} CellPrefix(before: seq<Byte>, start: nat, size: nat, s: seq<Byte>, t: seq<Byte>,
                                      n: nat, o: nat)
    requires size > 0 && n <= |s| <= |t| && s == t[..|s|]
    ensures Cell(before, start, size, s, n, o) == Cell(before, start, size, t, n, o)
  {
    if n > 0 {
      CellPrefix(before, start, size, s, t, n - 1, o);
    }
  }

  /** An image of the first `n` bytes stays one when the stream grows. */
  lemma ImagePrefix(contents: seq<Byte>, before: seq<Byte>, start: nat, size: nat,
                    s: seq<Byte>, t: seq<Byte>, n: nat)
    requires size > 0 && n <= |s| && s <= t
    requires IsRingImage(contents, before, start, size, s, n)
    ensures IsRingImage(contents, before, start, size, t, n)
  {
    forall o: nat | o < size
      ensures At(contents, o) == Cell(before, start, size, t, n, o)
    {
      CellPrefix(before, start, size, s, t, n, o);
    }
  }

  /** Writing the next `k` stream bytes at the ring position advances the image by `k`. */
  lemma ImageBlock(contents: seq<Byte>, contents': seq<Byte>, before: seq<Byte>, start: nat, size: nat,
                   stream: seq<Byte>, n: nat, k: nat)
    requires size > 0 && n + k <= |stream| && RingPos(start, size, n) + k <= size
    requires IsRingImage(contents, before, start, size, stream, n)
    requires forall o: nat :: At(contents', o) ==
               var c := RingPos(start, size, n);
               if c <= o < c + k then stream[n + (o - c)] else At(contents, o)
    ensures IsRingImage(contents', before, start, size, stream, n + k)
  {
    forall o: nat | o < size
      ensures At(contents', o) == Cell(before, start, size, stream, n + k, o)
    {
      CellBlock(before, start, size, stream, n, k, o);
    }
  }

  /** Bytes closer than a whole ring are mapped to different offsets. */
  lemma NoCollision(start: nat, size: nat, i: nat, j: nat)
    requires size > 0 && j < i < j + size
    ensures RingPos(start, size, j) != RingPos(start, size, i)
  {
    ModShift(start + j, i - j, size);
  }

  /** The last ringful of the stream is in the ring, byte for byte. */
  lemma {:induction false} LastRingfulIsKept(before: seq<Byte>, start: nat, size: nat, stream: seq<Byte>,
                                             n: nat, j: nat)
    requires size > 0 && j < n <= |stream| && n <= j + size
    ensures Cell(before, start, size, stream, n, RingPos(start, size, j)) == stream[j]
  {
    if j < n - 1 {
      NoCollision(start, size, n - 1, j);
      LastRingfulIsKept(before, start, size, stream, n - 1, j);
    }
  }

  /** Offsets the stream has not reached keep what they had. */
  lemma {:induction false} UntouchedCell(before: seq<Byte>, start: nat, size: nat, stream: seq<Byte>,
                                         n: nat, o: nat)
    requires size > 0 && n <= |stream|
    requires forall j: nat :: j < n ==> RingPos(start, size, j) != o
    ensures Cell(before, start, size, stream, n, o) == At(before, o)
  {
    if n > 0 {
      UntouchedCell(before, start, size, stream, n - 1, o);
    }
  }
}
