/**
 The message protocol of the service recorder, as a property of whole message sequences.

 Every message has a stamp: what the ring had accepted, and what the file durably held, when the
 message was sent.
 */
module Messages {
  import opened Tables
  import opened ByteRing

  datatype Message =
    | Start
    | Stop(reset: bool)
    | Chunk(time: int, pos: nat)
    | EventStart(event: Event, time: int, pos: nat)
    | EventUpdate(event: Event, time: int, pos: nat)
    | EventEnd(event: Event, time: int, pos: nat)

  datatype Stamp = Stamp(stream: seq<Byte>, durable: seq<Byte>)

  /** The ring file: its geometry, and what it held before recording started at `start`. */
  datatype Layout = Layout(chunkSize: nat, numChunks: nat, start: nat, before: seq<Byte>) {
    function RingSize(): nat {
      chunkSize * numChunks
    }

    ghost predicate Valid() {
      && chunkSize > 0 && numChunks > 0
      && exists c: nat :: IsChunkStart(c, start)
    }

    ghost predicate IsChunkStart(c: nat, pos: nat) {
      c < numChunks && pos == c * chunkSize
    }

    /** The chunk after the one at `pos`, around the ring. */
    function NextChunk(pos: nat): nat {
      if pos + chunkSize == RingSize() then 0 else pos + chunkSize
    }
  }

  datatype Boundary = Boundary(time: int, pos: nat)

  /** What a reader of the messages knows so far. */
  datatype Track = Track(boundary: Option<Boundary>, open: Option<int>, chunks: nat, lastChunk: nat) {
    function After(m: Message): Track {
      match m
      case Chunk(t, p) =>
        this.(chunks := chunks + 1, lastChunk := p,
              boundary := if boundary.None? then Some(Boundary(t, p)) else boundary)
      case EventStart(e, _, _) => this.(open := Some(e.id))
      case EventEnd(_, t, p) => this.(open := None, boundary := Some(Boundary(t, p)))
      case _ => this
    }

    /** No event has started or ended since. */
    predicate SameEvents(earlier: Track) {
      open == earlier.open && boundary == earlier.boundary
    }
  }

  function TrackAt(out: seq<Message>, n: nat): Track
    requires n <= |out|
  {
    if n == 0 then Track(None, None, 0, 0) else TrackAt(out, n - 1).After(out[n - 1])
  }

  ghost function Last(out: seq<Message>, n: nat): Option<Message>
    requires n <= |out|
  {
    if n == 0 then None else Some(out[n - 1])
  }

  /** Event messages alternate, match, and start where the previous event ended. */
  predicate EventLegal(t: Track, m: Message) {
    match m
    case EventStart(_, time, pos) => t.open.None? && t.boundary == Some(Boundary(time, pos))
    case EventUpdate(e, _, _) => t.open.Some? ==> t.open.value == e.id
    case EventEnd(e, _, _) => t.open == Some(e.id)
    case _ => true
  }

  predicate EventLegalAt(out: seq<Message>, i: nat)
    requires i < |out|
  {
    EventLegal(TrackAt(out, i), out[i])
  }

  predicate EventsLegal(out: seq<Message>) {
    forall i :: 0 <= i < |out| ==> EventLegalAt(out, i)
  }

  /** The file durably holds the ring image of exactly the first `chunks` chunks of the stream. */
  ghost predicate IsDurable(l: Layout, s: Stamp, chunks: nat)
    requires l.Valid()
  {
    && |s.stream| == chunks * l.chunkSize
    && IsRingImage(s.durable, l.before, l.start, l.RingSize(), s.stream, |s.stream|)
  }

  /**
   The first chunk message marks the start of the recording. Each later one comes right after an
   event-update with the same time and position, one chunk further around the ring, when that much
   of the stream is durable. An event ends at the position of the ring.
   */
  ghost predicate PositionLegal(l: Layout, t: Track, last: Option<Message>, m: Message, s: Stamp)
    requires l.Valid()
  {
    match m
    case Chunk(time, pos) =>
      if t.chunks == 0 then
        pos == l.start && s.stream == []
      else
        && pos == l.NextChunk(t.lastChunk)
        && last.Some? && last.value.EventUpdate? && last.value.time == time && last.value.pos == pos
        && IsDurable(l, s, t.chunks)
    case EventUpdate(_, _, _) => t.chunks > 0
    case EventEnd(_, _, pos) => pos == RingPos(l.start, l.RingSize(), |s.stream|)
    case _ => true
  }

  ghost predicate PositionLegalAt(l: Layout, out: seq<Message>, stamps: seq<Stamp>, i: nat)
    requires l.Valid() && i < |out| == |stamps|
  {
    PositionLegal(l, TrackAt(out, i), Last(out, i), out[i], stamps[i])
  }

  ghost predicate PositionsLegal(l: Layout, out: seq<Message>, stamps: seq<Stamp>) {
    && l.Valid()
    && |out| == |stamps|
    && forall i :: 0 <= i < |out| ==> PositionLegalAt(l, out, stamps, i)
  }

  ghost predicate WellFormed(l: Layout, out: seq<Message>, stamps: seq<Stamp>) {
    EventsLegal(out) && PositionsLegal(l, out, stamps)
  }

  lemma {:induction false} TrackPrefix(out: seq<Message>, m: Message, n: nat)
    requires n <= |out|
    ensures TrackAt(out + [m], n) == TrackAt(out, n)
  {
    if n > 0 {
      TrackPrefix(out, m, n - 1);
    }
  }

  lemma AppendEvent(out: seq<Message>, m: Message)
    requires EventsLegal(out) && EventLegal(TrackAt(out, |out|), m)
    ensures EventsLegal(out + [m])
  {
    forall i | 0 <= i <= |out|
      ensures EventLegalAt(out + [m], i)
    {
      TrackPrefix(out, m, i);
      assert i < |out| ==> EventLegalAt(out, i);
    }
  }

  lemma AppendPosition(l: Layout, out: seq<Message>, stamps: seq<Stamp>, m: Message, s: Stamp)
    requires PositionsLegal(l, out, stamps)
    requires PositionLegal(l, TrackAt(out, |out|), Last(out, |out|), m, s)
    ensures PositionsLegal(l, out + [m], stamps + [s])
  {
    forall i | 0 <= i <= |out|
      ensures PositionLegalAt(l, out + [m], stamps + [s], i)
    {
      TrackPrefix(out, m, i);
      assert Last(out + [m], i) == Last(out, i);
      assert i < |out| ==> PositionLegalAt(l, out, stamps, i);
    }
  }

  /** One legal message keeps a well-formed sequence well formed. */
  lemma Append(l: Layout, out: seq<Message>, stamps: seq<Stamp>, m: Message, s: Stamp)
    requires WellFormed(l, out, stamps)
    requires EventLegal(TrackAt(out, |out|), m)
    requires PositionLegal(l, TrackAt(out, |out|), Last(out, |out|), m, s)
    ensures WellFormed(l, out + [m], stamps + [s])
    ensures TrackAt(out + [m], |out| + 1) == TrackAt(out, |out|).After(m)
  {
    AppendEvent(out, m);
    AppendPosition(l, out, stamps, m, s);
    TrackPrefix(out, m, |out|);
  }

  // What a reader can conclude from a well-formed sequence

  /** Chunk positions are multiples of the chunk size inside the ring. */
  lemma {:induction false} ChunkPositions(l: Layout, out: seq<Message>, stamps: seq<Stamp>, n: nat)
    requires PositionsLegal(l, out, stamps) && n <= |out|
    ensures TrackAt(out, n).chunks > 0 ==> exists c: nat :: l.IsChunkStart(c, TrackAt(out, n).lastChunk)
  {
    if n > 0 {
      ChunkPositions(l, out, stamps, n - 1);
      var t := TrackAt(out, n - 1);
      assert PositionLegalAt(l, out, stamps, n - 1);
      if out[n - 1].Chunk? && t.chunks > 0 {
        var c: nat :| l.IsChunkStart(c, t.lastChunk);
        NextChunkStart(l, c);
      }
    }
  }

  lemma NextChunkStart(l: Layout, c: nat)
    requires l.chunkSize > 0 && c < l.numChunks
    ensures l.IsChunkStart(if c + 1 == l.numChunks then 0 else c + 1, l.NextChunk(c * l.chunkSize))
  {
    assert c * l.chunkSize + l.chunkSize == (c + 1) * l.chunkSize;
    if c + 1 < l.numChunks {
      MultiplesApart(l.numChunks, c + 1, l.chunkSize);
    }
  }

  lemma {:induction false} LastChunkBefore(out: seq<Message>, j: nat, k: nat)
    requires j < k <= |out| && out[j].Chunk?
    requires forall n :: j < n < k ==> !out[n].Chunk?
    ensures TrackAt(out, k).lastChunk == out[j].pos && TrackAt(out, k).chunks > 0
  {
    if j + 1 < k {
      LastChunkBefore(out, j, k - 1);
    }
  }

  /**
   Each chunk message is one chunk further, modulo the ring, than the one before it, follows an
   event-update with the same time and position, and comes when its bytes are durable.
   */
  lemma ChunksAdvance(l: Layout, out: seq<Message>, stamps: seq<Stamp>, j: nat, k: nat)
    requires PositionsLegal(l, out, stamps) && j < k < |out|
    requires out[j].Chunk? && out[k].Chunk?
    requires forall n :: j < n < k ==> !out[n].Chunk?
    ensures out[k].pos < l.RingSize() && out[k].pos == (out[j].pos + l.chunkSize) % l.RingSize()
    ensures out[k].pos % l.chunkSize == 0
    ensures out[k - 1].EventUpdate? && out[k - 1].time == out[k].time && out[k - 1].pos == out[k].pos
    ensures IsDurable(l, stamps[k], TrackAt(out, k).chunks)
  {
    LastChunkBefore(out, j, k);
    assert PositionLegalAt(l, out, stamps, k);
    ChunkPositions(l, out, stamps, k);
    var c: nat :| l.IsChunkStart(c, out[j].pos);
    NextChunkStart(l, c);
    var next := if c + 1 == l.numChunks then 0 else c + 1;
    ModUnique(out[k].pos, next, 0, l.chunkSize);
    MultiplesApart(l.numChunks, c, l.chunkSize);
    MultiplesApart(l.numChunks, next, l.chunkSize);
    ModUnique(out[j].pos + l.chunkSize, if next == 0 then 1 else 0, out[k].pos, l.RingSize());
  }

  /** While no event message comes, the open event and the boundary stay. */
  lemma {:induction false} NothingHappens(out: seq<Message>, i: nat, k: nat)
    requires i <= k <= |out|
    requires forall j :: i <= j < k ==> !out[j].EventStart? && !out[j].EventEnd?
    ensures TrackAt(out, k).open == TrackAt(out, i).open
    ensures TrackAt(out, i).boundary.Some? ==> TrackAt(out, k).boundary == TrackAt(out, i).boundary
  {
    if i < k {
      NothingHappens(out, i, k - 1);
    }
  }

  /**
   Recorded events tile the stream: between one event-start and the next there is exactly one
   event-end, it is for the first of the two, and it carries the time and position at which the
   second one starts.
   */
  lemma EventsTile(out: seq<Message>, i: nat, k: nat) returns (j: nat)
    requires EventsLegal(out) && i < k < |out|
    requires out[i].EventStart? && out[k].EventStart?
    requires forall n :: i < n < k ==> !out[n].EventStart?
    ensures i < j < k && out[j].EventEnd?
    ensures forall n :: i < n < k && out[n].EventEnd? ==> n == j
    ensures out[j].event.id == out[i].event.id
    ensures out[j].time == out[k].time && out[j].pos == out[k].pos
  {
    j := NextEnd(out, i + 1, k);
    assert EventLegalAt(out, j);
    var n := NextEnd(out, j + 1, k);
    assert EventLegalAt(out, n);
    assert n == k;
  }

  /** The first event-end from `i` on, or `k`; nothing happens on the way there. */
  lemma NextEnd(out: seq<Message>, i: nat, k: nat) returns (j: nat)
    requires i <= k <= |out|
    requires forall n :: i <= n < k ==> !out[n].EventStart?
    ensures i <= j <= k
    ensures j < k ==> out[j].EventEnd?
    ensures forall n :: i <= n < j ==> !out[n].EventEnd?
    ensures TrackAt(out, j).open == TrackAt(out, i).open
    ensures TrackAt(out, i).boundary.Some? ==> TrackAt(out, j).boundary == TrackAt(out, i).boundary
  {
    j := i;
    while j < k && !out[j].EventEnd?
      invariant i <= j <= k
      invariant forall n :: i <= n < j ==> !out[n].EventEnd?
    {
      j := j + 1;
    }
    NothingHappens(out, i, j);
  }

  /**
   With no event-end before it, an event-start is the first one, and it carries the time and
   position of the first chunk message.
   */
  lemma FirstEventStartsAtFirstChunk(out: seq<Message>, k: nat) returns (c: nat)
    requires EventsLegal(out) && k < |out| && out[k].EventStart?
    requires forall n :: 0 <= n < k ==> !out[n].EventEnd?
    ensures forall n :: 0 <= n < k ==> !out[n].EventStart?
    ensures c < k && out[c].Chunk? && forall n :: 0 <= n < c ==> !out[n].Chunk?
    ensures out[c].time == out[k].time && out[c].pos == out[k].pos
  {
    assert EventLegalAt(out, k);
    forall n | 0 <= n < k
      ensures !out[n].EventStart?
    {
      if out[n].EventStart? {
        StillOpen(out, n, k);
      }
    }
    c := 0;
    while c < k && !out[c].Chunk?
      invariant 0 <= c <= k
      invariant forall n :: 0 <= n < c ==> !out[n].Chunk?
      invariant TrackAt(out, c).boundary.None?
    {
      c := c + 1;
    }
    NothingHappens(out, c + 1, k);
  }

  /** Without an event-end, a started event stays open. */
  lemma {:induction false} StillOpen(out: seq<Message>, i: nat, k: nat)
    requires i < k <= |out| && out[i].EventStart?
    requires forall j :: i <= j < k ==> !out[j].EventEnd?
    ensures TrackAt(out, k).open.Some?
  {
    if i + 1 < k {
      StillOpen(out, i, k - 1);
    }
  }
}
