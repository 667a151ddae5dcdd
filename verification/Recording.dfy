/**
 The ring file sink and the service recorder that drives it.

 The sink collects packets in a buffer, writes full buffers to a file that wraps at the ring size,
 and tells the recorder when a chunk is complete and synced. The recorder turns clock, tables and
 chunk notifications into messages.
 */
module Recording {
  import opened Tables
  import opened ByteRing
  import opened Messages
  import opened Pcr
  import opened Clocks

  const BUFFER_SIZE := 2 * 4096
  const MAX_CHUNK_SIZE := BUFFER_SIZE * 0x3FFFF
  const MAX_NUM_CHUNKS := 0x7FFFFFFF

  /** A file whose writes may be short and, unless it is reliable, whose operations may fail. */
  class File {
    const reliable: bool
    var contents: seq<Byte>
    var cursor: nat
    ghost var durable: seq<Byte>

    constructor (contents: seq<Byte>, reliable: bool)
      ensures this.contents == contents && cursor == 0 && this.reliable == reliable
    {
      this.reliable, this.contents, cursor, durable := reliable, contents, 0, contents;
    }

    method Write(data: seq<Byte>) returns (n: int)
      modifies this
      ensures n <= |data| && durable == old(durable)
      ensures reliable && data != [] ==> n > 0
      ensures n <= 0 ==> contents == old(contents) && cursor == old(cursor)
      ensures n > 0 ==> cursor == old(cursor) + n
      ensures n > 0 ==> forall o: nat ::
                At(contents, o) ==
                (if old(cursor) <= o < old(cursor) + n then data[o - old(cursor)] else At(old(contents), o))
    {
      n := *;
      if n > |data| || (reliable && n <= 0) {
        n := |data|;
      }
      if n > 0 {
        var c := contents + (if |contents| < cursor then seq(cursor - |contents|, _ => 0) else []);
        contents := c[..cursor] + data[..n] + (if cursor + n <= |c| then c[cursor + n..] else []);
        cursor := cursor + n;
      }
    }

    method Sync() returns (ok: bool)
      modifies this
      ensures contents == old(contents) && cursor == old(cursor)
      ensures durable == if ok then contents else old(durable)
      ensures reliable ==> ok
    {
      ok := *;
      ok := ok || reliable;
      if ok {
        durable := contents;
      }
    }

    method Trunc(size: nat) returns (ok: bool)
      modifies this
      ensures cursor == old(cursor) && durable == old(durable)
      ensures reliable ==> ok
      ensures !ok ==> contents == old(contents)
      ensures ok ==> |contents| == size && forall o: nat :: o < size ==> At(contents, o) == At(old(contents), o)
    {
      ok := *;
      ok := ok || reliable;
      if ok {
        contents := if size <= |contents| then contents[..size]
        else contents + seq(size - |contents|, _ => 0);
      }
    }

    method Seek(offset: nat) returns (pos: int)
      modifies this
      ensures contents == old(contents) && durable == old(durable)
      ensures pos == offset ==> cursor == offset
      ensures reliable ==> pos == offset
    {
      var ok := *;
      if ok || reliable {
        cursor := offset;
        pos := offset;
      } else {
        pos := -1;
      }
    }
  }

  class RingFileSink {
    const file: File
    const chunkSize: nat
    const numChunks: nat
    const ringSize: nat
    const buf: array<Byte>
    var observer: ServiceRecorder?
    var ringPos: nat
    var bufPos: nat
    var chunkPos: nat
    var broken: bool

    /** Where and over what the recording started. */
    ghost var layout: Layout
    /** Every byte accepted since then. */
    ghost var stream: seq<Byte>
    /** The chunk being written, and how many have been completed. */
    ghost var chunkIndex: nat
    ghost var completed: nat
    /** Chunk size and position in whole buffers. */
    ghost const blocks: nat
    ghost var block: nat

    ghost predicate Geometry()
      reads this
    {
      && buf.Length == BUFFER_SIZE
      && chunkSize > 0 && chunkSize == BUFFER_SIZE * blocks && numChunks > 0
      && ringSize == chunkSize * numChunks == layout.RingSize()
      && layout.chunkSize == chunkSize && layout.numChunks == numChunks && layout.Valid()
    }

    /** How much of the stream has been written to the file. */
    ghost function Flushed(): int
      reads this
    {
      |stream| - bufPos
    }

    /** The file is the ring image of the flushed bytes and the buffer holds the rest. */
    ghost predicate Filled()
      reads this, file, buf
    {
      && Geometry()
      && bufPos <= BUFFER_SIZE && bufPos <= |stream|
      && chunkPos == BUFFER_SIZE * block && block < blocks
      && chunkIndex < numChunks
      && Flushed() == completed * chunkSize + chunkPos
      && file.cursor == chunkIndex * chunkSize + chunkPos == RingPos(layout.start, ringSize, Flushed())
      && ringPos == file.cursor + bufPos
      && IsRingImage(file.contents, layout.before, layout.start, ringSize, stream, Flushed())
      && forall i :: 0 <= i < bufPos ==> buf[i] == stream[Flushed() + i]
    }

    ghost predicate Valid()
      reads this, file, buf
    {
      Filled() && bufPos < BUFFER_SIZE
    }

    constructor (file: File, chunkSize: nat, numChunks: nat)
      requires 0 < chunkSize <= MAX_CHUNK_SIZE && chunkSize % BUFFER_SIZE == 0
      requires 0 < numChunks <= MAX_NUM_CHUNKS
      requires file.cursor == 0
      ensures Valid() && fresh(buf) && !broken && observer == null
      ensures this.file == file && this.chunkSize == chunkSize && this.numChunks == numChunks
      ensures stream == [] && layout == Layout(chunkSize, numChunks, 0, file.contents)
    {
      this.file, this.chunkSize, this.numChunks := file, chunkSize, numChunks;
      ringSize := chunkSize * numChunks;
      buf := new Byte[BUFFER_SIZE];
      observer, ringPos, bufPos, chunkPos, broken := null, 0, 0, 0, false;
      layout := Layout(chunkSize, numChunks, 0, file.contents);
      stream, chunkIndex, completed := [], 0, 0;
      blocks, block := chunkSize / BUFFER_SIZE, 0;
      new;
      assert chunkSize == BUFFER_SIZE * blocks && blocks > 0;
      assert layout.IsChunkStart(0, 0);
      ModUnique(0, 0, 0, ringSize);
      assert Geometry();
    }

    /** Starts over at a chunk boundary; what was buffered is forgotten. */
    method SetPosition(pos: nat) returns (ok: bool)
      requires Geometry() && pos < ringSize && pos % chunkSize == 0
      modifies this, file
      ensures ok ==> Valid() && stream == [] && bufPos == 0 && completed == 0
      ensures ok ==> layout == Layout(chunkSize, numChunks, pos, file.contents)
      ensures file.contents == old(file.contents) && (file.reliable ==> ok)
      ensures observer == old(observer) && broken == old(broken)
    {
      var offset := file.Seek(pos);
      if offset != pos {
        return false;
      }
      bufPos := 0;
      ringPos := pos;
      chunkPos := 0;
      ChunkStart(pos);
      layout := Layout(chunkSize, numChunks, pos, file.contents);
      stream, completed, chunkIndex, block := [], 0, pos / chunkSize, 0;
      assert layout.IsChunkStart(chunkIndex, pos);
      return true;
    }

    lemma ChunkStart(pos: nat)
      requires Geometry() && pos < ringSize && pos % chunkSize == 0
      ensures pos / chunkSize < numChunks && pos == (pos / chunkSize) * chunkSize
      ensures pos % ringSize == pos
    {
      var c := pos / chunkSize;
      assert pos == c * chunkSize;
      if c >= numChunks {
        if c > numChunks {
          MultiplesApart(c, numChunks, chunkSize);
        }
        assert false;
      }
      ModUnique(pos, 0, pos, ringSize);
    }

    /** A whole buffer fits between the file cursor and the end of the ring. */
    lemma BlockFits()
      requires Filled()
      ensures file.cursor + BUFFER_SIZE <= ringSize
      ensures chunkPos + BUFFER_SIZE <= chunkSize
    {
      NextBlock(chunkIndex, numChunks, blocks, block);
    }

    /** The reported position is where the plain ring would be. */
    lemma RingPosition()
      requires Valid()
      ensures ringPos == RingPos(layout.start, ringSize, |stream|) < ringSize
    {
      BlockFits();
      RingPosStep(layout.start, ringSize, Flushed(), bufPos);
    }

    /** The buffer holds what is left over from whole buffers. */
    lemma BufferFill()
      requires Valid()
      ensures bufPos == |stream| % BUFFER_SIZE
    {
      LeftOver(|stream|, completed, blocks, block, bufPos);
    }

    /** As many chunks are completed as whole chunks have been accepted. */
    lemma ChunksDone()
      requires Valid()
      ensures |stream| / chunkSize == completed
    {
      BlockFits();
      var q, rest := |stream| / chunkSize, |stream| % chunkSize;
      assert |stream| == q * chunkSize + rest;
      QuotientsOrdered(chunkSize, q, rest, completed, chunkPos + bufPos);
      QuotientsOrdered(chunkSize, completed, chunkPos + bufPos, q, rest);
    }

    method FillBuffer(data: seq<Byte>) returns (n: nat)
      requires Valid()
      modifies this`bufPos, this`ringPos, this`stream, buf
      ensures Filled() && n <= |data| && stream == old(stream) + data[..n]
      ensures n == |data| || bufPos == BUFFER_SIZE
      ensures bufPos == old(bufPos) + n
      ensures data != [] ==> n > 0
    {
      BlockFits();
      n := if |data| < BUFFER_SIZE - bufPos then |data| else BUFFER_SIZE - bufPos;
      forall i | 0 <= i < n {
        buf[bufPos + i] := data[i];
      }
      bufPos := bufPos + n;
      assert bufPos <= BUFFER_SIZE;
      ringPos := ringPos + n;
      assert ringPos <= ringSize;
      stream := stream + data[..n];
      ImagePrefix(file.contents, layout.before, layout.start, ringSize, old(stream), stream, Flushed());
    }

    predicate NeedFlush()
      reads this
    {
      bufPos == BUFFER_SIZE
    }

    /** Writes the whole buffer, in as many pieces as the file takes it. */
    method WriteBuffer() returns (ok: bool)
      requires Filled() && bufPos == BUFFER_SIZE
      modifies file
      ensures ok ==> file.cursor == old(file.cursor) + BUFFER_SIZE
      ensures ok ==> IsRingImage(file.contents, layout.before, layout.start, ringSize, stream, |stream|)
      ensures file.reliable ==> ok
    {
      BlockFits();
      ghost var c := file.cursor;
      ghost var contents := file.contents;
      var nwritten := 0;
      while nwritten < BUFFER_SIZE
        invariant 0 <= nwritten <= BUFFER_SIZE
        invariant file.cursor == c + nwritten
        invariant forall o: nat ::
            At(file.contents, o) == (if c <= o < c + nwritten then buf[o - c] else At(contents, o))
      {
        var result := file.Write(buf[nwritten..]);
        if result <= 0 {
          return false;
        }
        nwritten := nwritten + result;
      }
      assert nwritten == BUFFER_SIZE;
      ImageBlock(contents, file.contents, layout.before, layout.start, ringSize, stream, Flushed(), BUFFER_SIZE);
      return true;
    }

    /** Before the first byte the sink is at its start position, a chunk boundary. */
    lemma AtStart()
      requires Valid() && stream == []
      ensures ringPos == layout.start == chunkIndex * chunkSize && completed == 0
      ensures ringPos % chunkSize == 0
    {
      RingPosition();
      var c: nat :| layout.IsChunkStart(c, layout.start);
      MultiplesApart(numChunks, c, chunkSize);
      ModUnique(layout.start, 0, layout.start, ringSize);
      assert completed * chunkSize >= 0;
      if completed > 0 {
        MultiplesApart(completed, 0, chunkSize);
      }
      ModUnique(ringPos, chunkIndex, 0, chunkSize);
    }

    ghost function Observers(): set<ServiceRecorder>
      reads this
    {
      if observer == null then {} else {observer}
    }

    /** The observer, if there is one, is ready to be told about the next chunk. */
    ghost predicate Observed()
      reads this, observer, if observer == null then {} else {observer.clock, observer.clock.baseline}
    {
      observer != null ==> observer.sink == this && observer.CanReport()
    }

    /** Everything accepted is in the file, whose cursor may still be at the end of the ring. */
    ghost predicate Written()
      reads this, file
    {
      && Geometry()
      && bufPos == 0 && chunkIndex < numChunks
      && chunkPos == BUFFER_SIZE * block
      && |stream| == completed * chunkSize + chunkPos
      && file.cursor == ringPos
      && RingPos(layout.start, ringSize, |stream|) == (if ringPos == ringSize then 0 else ringPos)
      && IsRingImage(file.contents, layout.before, layout.start, ringSize, stream, |stream|)
    }

    /** With a full buffer the ring position is the next block boundary. */
    lemma FullBuffer()
      requires Filled() && bufPos == BUFFER_SIZE
      ensures chunkPos + BUFFER_SIZE <= chunkSize
      ensures chunkPos + BUFFER_SIZE < chunkSize ==> ringPos < ringSize
      ensures RingPos(layout.start, ringSize, |stream|) == if ringPos == ringSize then 0 else ringPos
      ensures ringPos == chunkIndex * chunkSize + (chunkPos + BUFFER_SIZE)
      ensures |stream| == completed * chunkSize + (chunkPos + BUFFER_SIZE)
    {
      NextBlock(chunkIndex, numChunks, blocks, block);
      RingPosStep(layout.start, ringSize, Flushed(), BUFFER_SIZE);
    }

    /** Empties the buffer into the file. */
    method WriteBlock() returns (ok: bool)
      requires Filled() && bufPos == BUFFER_SIZE
      modifies this`bufPos, this`chunkPos, this`block, file
      ensures ok ==> Written() && chunkPos <= chunkSize
      ensures ok ==> ringPos == chunkIndex * chunkSize + chunkPos
      ensures ok && chunkPos < chunkSize ==> ringPos < ringSize
      ensures file.reliable ==> ok
    {
      FullBuffer();
      ok := WriteBuffer();
      if ok {
        bufPos := 0;
        chunkPos := chunkPos + BUFFER_SIZE;
        block := block + 1;
      }
    }

    /** Syncs the completed chunk and tells the observer. */
    method EndChunk() returns (ok: bool)
      requires Written() && Observed() && chunkPos == chunkSize
      requires ringPos == chunkIndex * chunkSize + chunkPos
      modifies this`chunkPos, this`block, this`chunkIndex, this`completed, file
      modifies Observers()`out, Observers()`stamps, Observers()`track, Observers()`reported
      ensures Observed()
      ensures ok ==> Written() && chunkPos == 0
      ensures ok ==> chunkIndex * chunkSize == if ringPos == ringSize then 0 else ringPos
      ensures observer != null ==> observer.Told(old(observer.track), old(observer.out), old(completed))
      ensures file.reliable ==> ok
    {
      NextBlock(chunkIndex, numChunks, blocks, blocks - 1);
      assert ringPos != 0;
      assert ringPos % chunkSize == 0 by {
        ModUnique(ringPos, chunkIndex + 1, 0, chunkSize);
      }
      var synced := file.Sync();
      if !synced {
        return false;
      }
      assert completed * chunkSize + chunkSize == (completed + 1) * chunkSize;
      chunkPos, block := 0, 0;
      chunkIndex := if chunkIndex + 1 == numChunks then 0 else chunkIndex + 1;
      completed := completed + 1;
      if observer != null {
        assert IsDurable(layout, observer.Stamped(), completed);
        observer.OnEndOfChunk(ringPos);
      }
      return true;
    }

    /** At the end of the ring, cuts the file there and goes back to its front. */
    method Rewind() returns (ok: bool)
      requires Written() && chunkPos < chunkSize
      requires chunkIndex * chunkSize + chunkPos == if ringPos == ringSize then 0 else ringPos
      modifies this`ringPos, file
      ensures ok ==> Valid()
      ensures file.reliable ==> ok
    {
      if ringPos == ringSize {
        var truncated := file.Trunc(ringSize);
        if !truncated {
          return false;
        }
        var offset := file.Seek(0);
        if offset != 0 {
          return false;
        }
        ringPos := 0;
      }
      return true;
    }

    /** Writes the buffer, and closes the chunk if it is complete. */
    method CloseBlock() returns (ok: bool)
      requires Filled() && bufPos == BUFFER_SIZE && Observed()
      modifies this`bufPos, this`chunkPos, this`block, this`chunkIndex, this`completed, file
      modifies Observers()`out, Observers()`stamps, Observers()`track, Observers()`reported
      ensures Observed()
      ensures ok ==> Written() && chunkPos < chunkSize
      ensures ok ==> chunkIndex * chunkSize + chunkPos == if ringPos == ringSize then 0 else ringPos
      ensures observer != null ==> observer.Told(old(observer.track), old(observer.out), old(completed))
      ensures file.reliable ==> ok
    {
      ok := WriteBlock();
      if ok && chunkPos == chunkSize {
        ok := EndChunk();
      }
    }

    /** Writes the buffer, closes the chunk if it is complete, and wraps at the end of the ring. */
    method Flush() returns (ok: bool)
      requires Filled() && bufPos == BUFFER_SIZE && Observed()
      modifies this`bufPos, this`chunkPos, this`block, this`ringPos, this`chunkIndex, this`completed, file
      modifies Observers()`out, Observers()`stamps, Observers()`track, Observers()`reported
      ensures ok ==> Valid() && bufPos == 0
      ensures Observed()
      ensures observer != null ==> observer.Told(old(observer.track), old(observer.out), old(completed))
      ensures file.reliable ==> ok
    {
      ok := CloseBlock();
      if ok {
        ok := Rewind();
      }
    }

    method HandlePacket(packet: seq<Byte>) returns (ok: bool)
      requires Valid() && Observed() && |packet| == PKT_SIZE
      modifies this, file, buf
      modifies Observers()`out, Observers()`stamps, Observers()`track, Observers()`reported
      ensures ok ==> Valid() && stream == old(stream) + packet && broken == old(broken)
      ensures !ok ==> broken && old(stream) <= stream <= old(stream) + packet
      ensures observer == old(observer) && layout == old(layout) && Observed()
      ensures observer != null ==> observer.Told(old(observer.track), old(observer.out), old(completed))
      ensures file.reliable ==> ok
    {
      ghost var events := if observer == null then Track(None, None, 0, 0) else observer.track;
      ghost var before := if observer == null then [] else observer.out;
      ok := AcceptAll(packet, events, before);
      if !ok {
        broken := true;
      }
    }

    /** Takes the packet in as many pieces as the buffer makes of it. */
    method AcceptAll(packet: seq<Byte>, ghost events: Track, ghost before: seq<Message>) returns (ok: bool)
      requires Valid() && Observed() && |packet| == PKT_SIZE
      requires observer != null ==> observer.Told(events, before, completed)
      modifies this`bufPos, this`chunkPos, this`block, this`ringPos, this`chunkIndex, this`completed, this`stream
      modifies file, buf
      modifies Observers()`out, Observers()`stamps, Observers()`track, Observers()`reported
      ensures ok ==> Valid() && stream == old(stream) + packet
      ensures old(stream) <= stream <= old(stream) + packet
      ensures Observed() && (observer != null ==> observer.Told(events, before, old(completed)))
      ensures file.reliable ==> ok
    {
      var nwritten := 0;
      while nwritten < PKT_SIZE
        invariant 0 <= nwritten <= PKT_SIZE
        // An equivalence keeps the predicate whole, which makes it cheap to maintain.
        invariant (Valid() <==> true) && (Observed() <==> true)
        invariant stream == old(stream) + packet[..nwritten]
        invariant observer != null ==> (observer.Told(events, before, old(completed)) <==> true)
        invariant completed != old(completed) ==> bufPos + (PKT_SIZE - nwritten) < BUFFER_SIZE
      {
        var n, accepted := Accept(packet[nwritten..], events, before, old(completed));
        nwritten := nwritten + n;
        if !accepted {
          return false;
        }
      }
      return true;
    }

    /**
     Takes as much as fits in the buffer and flushes it when it is full, which happens at most once from
     the time when `chunks` chunks were completed.
     */
    method Accept(data: seq<Byte>, ghost events: Track, ghost before: seq<Message>, ghost chunks: nat)
      returns (n: nat, ok: bool)
      requires Valid() && Observed() && 0 < |data| <= PKT_SIZE
      requires observer != null ==> observer.Told(events, before, chunks)
      requires completed != chunks ==> bufPos + |data| < BUFFER_SIZE
      modifies this`bufPos, this`chunkPos, this`block, this`ringPos, this`chunkIndex, this`completed, this`stream
      modifies file, buf
      modifies Observers()`out, Observers()`stamps, Observers()`track, Observers()`reported
      ensures 0 < n <= |data| && stream == old(stream) + data[..n]
      ensures ok ==> Valid()
      ensures ok && completed != chunks ==> bufPos + (|data| - n) < BUFFER_SIZE
      ensures Observed()
      ensures observer != null ==> observer.Told(events, before, chunks)
      ensures file.reliable ==> ok
    {
      n := FillBuffer(data);
      ok := true;
      if NeedFlush() {
        ok := Flush();
      }
    }
  }

  lemma LeftOver(n: nat, k: nat, blocks: nat, block: nat, rest: nat)
    requires n == k * (BUFFER_SIZE * blocks) + BUFFER_SIZE * block + rest && rest < BUFFER_SIZE
    ensures n % BUFFER_SIZE == rest
  {
    assert k * (BUFFER_SIZE * blocks) == BUFFER_SIZE * (k * blocks);
    var q := k * blocks + block;
    assert n == BUFFER_SIZE * q + rest;
  }

  /** One block further: inside the chunk, at its end, or at the end of the ring. */
  lemma NextBlock(chunkIndex: nat, numChunks: nat, blocks: nat, block: nat)
    requires chunkIndex < numChunks && block < blocks
    ensures
      var chunkSize := BUFFER_SIZE * blocks;
      var next := BUFFER_SIZE * block + BUFFER_SIZE;
      && next <= chunkSize
      && chunkIndex * chunkSize + next <= chunkSize * numChunks
      && chunkIndex * chunkSize + chunkSize == (chunkIndex + 1) * chunkSize
      && (chunkIndex + 1 == numChunks <==> (chunkIndex + 1) * chunkSize == chunkSize * numChunks)
      && (next < chunkSize ==> chunkIndex * chunkSize + next < chunkSize * numChunks)
  {
    var chunkSize := BUFFER_SIZE * blocks;
    MultiplesApart(numChunks, chunkIndex, chunkSize);
    if chunkIndex + 1 < numChunks {
      MultiplesApart(numChunks, chunkIndex + 1, chunkSize);
    }
  }

  predicate NoEndTime(e: Event) {
    e.duration <= 0
  }

  function EndTime(e: Event): int {
    e.start + e.duration * 1000
  }

  /** The event messages due at `now`: the current event is `current`, and the latest information says `latest`. */
  function EventMessages(started: bool, current: Event, latest: Event, now: int, pos: nat, b: Boundary): seq<Message> {
    if latest.id != current.id then
      if started then [EventEnd(current, now, pos), EventStart(latest, now, pos)]
      else [EventStart(latest, b.time, b.pos)]
    else if started && !NoEndTime(latest) && now >= EndTime(latest) then
      [EventEnd(latest, EndTime(latest), pos)]
    else []
  }

  /** The messages of a recording so far, whether an event is running, and where the last one ended. */
  datatype Log = Log(out: seq<Message>, started: bool, boundary: Boundary) {
    /** The recording begins with a chunk message, and with an event unless it is already over. */
    function Begin(e: Event, now: int, pos: nat): Log {
      var starts := NoEndTime(e) || now < EndTime(e);
      Log(out + [Chunk(now, pos)] + (if starts then [EventStart(e, now, pos)] else []), starts, Boundary(now, pos))
    }

    /** The event messages that are due. */
    function Follow(current: Event, latest: Event, now: int, pos: nat): Log {
      var over := !NoEndTime(latest) && now >= EndTime(latest);
      Log(out + EventMessages(started, current, latest, now, pos, boundary),
          latest.id != current.id || (started && !over),
          if started && latest.id != current.id then Boundary(now, pos)
          else if started && over then Boundary(EndTime(latest), pos)
          else boundary)
    }

    /** A chunk is finished. */
    function Report(e: Event, time: int, pos: nat): Log {
      this.(out := out + [EventUpdate(e, time, pos), Chunk(time, pos)])
    }
  }

  /** What the tables and PCRs have told the recorder. */
  datatype Heard = Heard(event: Option<Event>, pmtPid: Pid, clock: Ideal) {
    function AfterTable(sid: int, t: Table): (h: Heard)
      ensures clock.Valid() ==> h.clock.Valid()
      ensures event.Some? ==> h.event.Some?
    {
      match t
      case Pat(_, _, _, _, pmts) =>
        if Acceptable(t) && sid in pmts then this.(pmtPid := pmts[sid]) else this
      case Pmt(_, _, valid, service, pcrPid, _, _, _) =>
        if valid && service == sid && (clock.pid == PID_NULL || clock.pid != pcrPid) then
          this.(clock := clock.AfterPid(pcrPid))
        else this
      case Eit(valid, service, events) =>
        if valid && service == sid && events != [] then this.(event := Some(events[0])) else this
      case Tot(valid, time) =>
        if valid then this.(clock := clock.AfterTime(time)) else this
      case Cat(_, _) => this
    }

    function AfterTables(sid: int, tables: seq<Table>, n: nat): (h: Heard)
      requires n <= |tables|
      ensures clock.Valid() ==> h.clock.Valid()
      ensures event.Some? ==> h.event.Some?
    {
      if n == 0 then this else AfterTables(sid, tables, n - 1).AfterTable(sid, tables[n - 1])
    }

    function AfterPcr(packet: Packet): (h: Heard)
      requires clock.Valid()
      ensures h.clock.Valid() && h.event == event
    {
      if clock.pid != PID_NULL && clock.pid == packet.pid && packet.pcr.Some? && ValidPcr(packet.pcr.value) then
        this.(clock := clock.AfterPcr(packet.pcr.value))
      else this
    }

    /** Clock and event are known. */
    predicate Complete() {
      clock.Ready() && event.Some?
    }

    /** The PCR of a packet counts before its tables do. */
    function After(sid: int, packet: Packet, tables: seq<Table>): (h: Heard)
      requires clock.Valid()
      ensures h.clock.Valid() && (event.Some? ==> h.event.Some?)
    {
      AfterPcr(packet).AfterTables(sid, tables, |tables|)
    }
  }

  /** The times at which the event messages and the chunk messages of an input were sent. */
  datatype Times = Times(now: int, chunk: int)

  /** The log of a recording, what has been heard, and how many bytes are recorded once it has begun. */
  datatype Tape = Tape(log: Log, heard: Heard, recorded: Option<nat>) {
    ghost predicate Valid() {
      heard.clock.Valid() && (recorded.Some? ==> heard.event.Some?)
    }

    /** The event messages of a packet have been sent. */
    ghost function Due(l: Layout, sid: int, input: Input, t: Times): Log
      requires Valid() && l.Valid() && recorded.Some?
    {
      log.Follow(heard.event.value, heard.After(sid, input.packet, input.tables).event.value, t.now,
                 RingPos(l.start, l.RingSize(), recorded.value))
    }

    /** The chunk that was being written has been reported too. */
    ghost function Reported(l: Layout, sid: int, input: Input, t: Times): Log
      requires Valid() && l.Valid() && recorded.Some?
    {
      Due(l, sid, input, t).Report(heard.After(sid, input.packet, input.tables).event.value, t.chunk,
                                   RingPos(l.start, l.RingSize(), (recorded.value / l.chunkSize + 1) * l.chunkSize))
    }

    /**
     A packet that completes what must be known begins the recording; each later one is recorded after
     the messages that are due, and may finish a chunk.
     */
    ghost function After(l: Layout, sid: int, input: Input, t: Times): (next: Tape)
      requires Valid() && l.Valid()
      ensures next.Valid()
    {
      var h := heard.After(sid, input.packet, input.tables);
      match recorded
      case None =>
        if h.Complete() then Tape(log.Begin(h.event.value, t.now, l.start), h, Some(0)) else Tape(log, h, None)
      case Some(n) =>
        var ends := (n + PKT_SIZE) / l.chunkSize > n / l.chunkSize;
        Tape(if ends then Reported(l, sid, input, t) else Due(l, sid, input, t), h, Some(n + PKT_SIZE))
    }

    /** The file has failed: the event messages were sent, and maybe the chunk was reported. */
    ghost predicate Fails(l: Layout, sid: int, input: Input, t: Times, out: seq<Message>) {
      && Valid() && l.Valid() && recorded.Some?
      && (out == Due(l, sid, input, t).out || out == Reported(l, sid, input, t).out)
    }
  }

  const NOTHING_HEARD: Heard := Heard(None, PID_NULL, FRESH)

  datatype State = Preparing | Recording | Done

  class ServiceRecorder {
    const sid: int
    const startPos: nat
    const sink: RingFileSink
    const clock: Clock
    var boundaryTime: int
    var boundaryPos: nat
    var eit: Option<Event>
    var newEit: Option<Event>
    var pmtPid: Pid
    var state: State
    var eventStarted: bool
    var out: seq<Message>
    ghost var stamps: seq<Stamp>
    ghost var track: Track
    /** The time of the last chunk that was reported by the sink. */
    ghost var reported: int

    constructor (sid: int, startPos: nat, sink: RingFileSink)
      requires sink.Valid() && sink.stream == [] && sink.layout.start == 0
      requires startPos < sink.ringSize && startPos % sink.chunkSize == 0
      modifies sink
      ensures Valid() && this.sink == sink && this.startPos == startPos && this.sid == sid
      ensures fresh(clock) && fresh(clock.baseline) && out == [] && state == Preparing
      ensures Hears() == NOTHING_HEARD && View() == Log([], false, Boundary(0, 0))
      ensures sink.layout == old(sink.layout) && sink.broken == old(sink.broken)
    {
      this.sid, this.startPos, this.sink := sid, startPos, sink;
      clock := new Clock();
      boundaryTime, boundaryPos, eit, newEit := 0, 0, None, None;
      pmtPid, state, eventStarted := PID_NULL, Preparing, false;
      out, stamps, track, reported := [], [], Track(None, None, 0, 0), 0;
      new;
      sink.observer := this;
    }

    ghost function Stamped(): Stamp
      reads this, sink, sink.file
    {
      Stamp(sink.stream, sink.file.durable)
    }

    /** The messages so far are well formed, and their stamps belong to the recorded stream. */
    ghost predicate Trace()
      reads this, sink
    {
      && WellFormed(sink.layout, out, stamps)
      && track == TrackAt(out, |out|)
      && forall i :: 0 <= i < |stamps| ==> stamps[i].stream <= sink.stream
    }

    /** The chunk messages have kept up with the sink. */
    ghost predicate InSync()
      reads this, sink
    {
      && eit.Some?
      && track.chunks == sink.completed + 1
      && track.lastChunk == sink.chunkIndex * sink.chunkSize
      && track.boundary.Some?
      && (track.open.Some? ==> track.open.value == eit.value.id)
    }

    ghost predicate CanReport()
      reads this, sink, clock, clock.baseline
    {
      Trace() && InSync() && clock.Valid()
    }

    /** The recorder's own fields agree with what a reader of the messages knows. */
    ghost predicate Agrees()
      reads this, sink
    {
      match state
      case Preparing =>
        && track == Track(None, None, 0, 0) && eit.None? && !eventStarted
        && sink.stream == [] && sink.completed == 0
      case Recording =>
        && InSync()
        && track.boundary == Some(Boundary(boundaryTime, boundaryPos))
        && track.open == if eventStarted then Some(eit.value.id) else None
      case Done => false
    }

    ghost predicate Valid()
      reads this, sink, sink.file, sink.buf, clock, clock.baseline
    {
      sink.Valid() && sink.observer == this && clock.Valid() && Trace() && Agrees()
    }

    /** Since the sink had completed `chunks` chunks, it has reported one more, at the time of the clock, or none. */
    ghost predicate Grew(before: seq<Message>, chunks: nat)
      requires sink.ringSize > 0
      reads this, sink, clock
    {
      if sink.completed == chunks then out == before
      else
        && sink.completed == chunks + 1 && eit.Some?
        && (clock.ideal.Ready() ==> reported == clock.ideal.Shown())
        && var pos := RingPos(sink.layout.start, sink.ringSize, sink.completed * sink.chunkSize);
           out == before + [EventUpdate(eit.value, reported, pos), Chunk(reported, pos)]
    }

    /** The sink has reported at most one chunk, and no event message was sent. */
    ghost predicate Told(events: Track, before: seq<Message>, chunks: nat)
      requires sink.ringSize > 0
      reads this, sink, clock
    {
      track.SameEvents(events) && Grew(before, chunks)
    }

    ghost function View(): Log
      reads this
    {
      Log(out, eventStarted, Boundary(boundaryTime, boundaryPos))
    }

    method Send(m: Message)
      requires Trace()
      requires EventLegal(track, m)
      requires PositionLegal(sink.layout, track, Last(out, |out|), m, Stamped())
      modifies this`out, this`stamps, this`track
      ensures Trace() && out == old(out) + [m] && track == old(track).After(m)
    {
      Append(sink.layout, out, stamps, m, Stamped());
      out := out + [m];
      stamps := stamps + [Stamped()];
      track := track.After(m);
    }

    method OnEndOfChunk(pos: nat)
      requires Trace() && clock.Valid() && eit.Some?
      requires track.chunks == sink.completed > 0 && track.boundary.Some?
      requires track.open.Some? ==> track.open.value == eit.value.id
      requires sink.layout.NextChunk(track.lastChunk) == if pos == sink.ringSize then 0 else pos
      requires IsDurable(sink.layout, Stamped(), sink.completed)
      modifies this`out, this`stamps, this`track, this`reported
      ensures Trace()
      ensures track == old(track).(chunks := old(track).chunks + 1,
                                   lastChunk := if pos == sink.ringSize then 0 else pos)
      ensures clock.ideal.Ready() ==> reported == clock.ideal.Shown()
      ensures
        var p := if pos == sink.ringSize then 0 else pos;
        out == old(out) + [EventUpdate(eit.value, reported, p), Chunk(reported, p)]
    {
      var now := clock.Now();
      reported := now;
      var p := pos;
      if p == sink.ringSize {
        p := 0;
      }
      Send(EventUpdate(eit.value, now, p));
      Send(Chunk(now, p));
    }

    method Start() returns (ok: bool)
      requires Valid() && out == []
      requires startPos < sink.ringSize && startPos % sink.chunkSize == 0
      modifies this, sink, sink.file
      ensures ok ==> Valid() && View() == old(View()).(out := [Message.Start])
      ensures ok ==> state == old(state) && Hears() == old(Hears())
      ensures sink.broken == old(sink.broken) && (sink.file.reliable || startPos == 0 ==> ok)
      ensures ok ==> sink.layout == if startPos == 0 then old(sink.layout)
                                    else old(sink.layout).(start := startPos, before := old(sink.file.contents))
    {
      if startPos != 0 {
        ok := sink.SetPosition(startPos);
        if !ok {
          return;
        }
      }
      Send(Message.Start);
      ok := true;
    }

    ghost function Hears(): Heard
      reads this`newEit, this`pmtPid, clock
    {
      Heard(newEit, pmtPid, clock.ideal)
    }

    method HandleTable(t: Table)
      requires clock.Valid()
      requires t.Pat? && Acceptable(t) ==> sid in t.pmts
      modifies this`newEit, this`pmtPid, clock, clock.baseline
      ensures clock.Valid()
      ensures Hears() == old(Hears()).AfterTable(sid, t)
    {
      match t {
        case Pat(_, _, _, _, pmts) =>
          if Acceptable(t) {
            pmtPid := pmts[sid];
          }
        case Pmt(_, _, valid, service, pcrPid, _, _, _) =>
          if valid && service == sid {
            if !clock.HasPid() || clock.baseline.pid != pcrPid {
              clock.SetPid(pcrPid);
            }
          }
        case Eit(valid, service, events) =>
          if valid && service == sid && events != [] {
            newEit := Some(events[0]);
          }
        case Tot(valid, time) =>
          if valid {
            clock.UpdateTime(time);
          }
        case Cat(_, _) =>
      }
    }

    method FeedTables(tables: seq<Table>)
      requires clock.Valid()
      requires forall i :: 0 <= i < |tables| ==> tables[i].Pat? && Acceptable(tables[i]) ==> sid in tables[i].pmts
      modifies this`newEit, this`pmtPid, clock, clock.baseline
      ensures clock.Valid() && Hears() == old(Hears()).AfterTables(sid, tables, |tables|)
    {
      for i := 0 to |tables|
        invariant clock.Valid() && Hears() == old(Hears()).AfterTables(sid, tables, i)
      {
        HandleTable(tables[i]);
      }
    }

    method HandlePcr(packet: Packet)
      requires clock.Valid()
      modifies clock, clock.baseline
      ensures clock.Valid() && Hears() == old(Hears()).AfterPcr(packet)
    {
      if clock.HasPid() && clock.baseline.pid == packet.pid && packet.pcr.Some? {
        if ValidPcr(packet.pcr.value) {
          clock.UpdatePcr(packet.pcr.value);
        }
      }
    }

    /**
     A packet is heard first. Then preparation ends exactly when clock and event are known, or, while
     recording, the event messages due come first and the packet is recorded after them. `now` is the
     time of these messages, and that of the clock whenever it is ready.
     */
    method HandlePacket(packet: Packet, tables: seq<Table>) returns (more: bool, ghost now: int)
      requires Valid() && |packet.bytes| == PKT_SIZE
      requires forall i :: 0 <= i < |tables| ==> tables[i].Pat? && Acceptable(tables[i]) ==> sid in tables[i].pmts
      modifies this, sink, sink.file, sink.buf, clock, clock.baseline
      ensures more ==> Valid() && sink.broken == old(sink.broken)
      ensures !more ==> old(state) == Recording && sink.broken && !sink.file.reliable
      ensures Trace() && sink.layout == old(sink.layout)
      ensures clock.ideal.Ready() ==> now == clock.ideal.Shown()
      ensures old(state) == Preparing ==>
                Prepares(old(View()), old(Hears()).After(sid, packet, tables), now) && sink.stream == old(sink.stream)
      ensures old(state) == Recording ==>
                && Records(old(View()), old(eit).value, old(Hears()).After(sid, packet, tables), now,
                           old(sink.ringPos), old(sink.completed))
                && Stores(old(sink.stream), packet.bytes, more)
    {
      HandlePcr(packet);
      FeedTables(tables);
      now := if clock.ideal.Ready() then clock.ideal.Shown() else 0;
      match state {
        case Preparing => more, now := OnPreparing();
        case Recording => more, now := OnRecording(packet.bytes);
        case Done => more := false;
      }
    }

    /** What a packet does while preparing, when `h` is what has been heard. */
    ghost predicate Prepares(before: Log, h: Heard, now: int)
      reads this, sink, clock
    {
      if h.Complete() then
        && state == Recording && View() == before.Begin(h.event.value, now, sink.layout.start)
        && eit == h.event && Hears() == h.(event := None)
      else state == Preparing && View() == before && Hears() == h
    }

    /** What a packet does while recording, when `h` is what has been heard. */
    ghost predicate Records(before: Log, current: Event, h: Heard, now: int, pos: nat, chunks: nat)
      requires sink.ringSize > 0
      reads this, sink, clock
    {
      var latest := if h.event.Some? then h.event.value else current;
      && state == Recording && eit == Some(latest) && Hears() == h.(event := None)
      && eventStarted == before.Follow(current, latest, now, pos).started
      && Boundary(boundaryTime, boundaryPos) == before.Follow(current, latest, now, pos).boundary
      && Grew(before.Follow(current, latest, now, pos).out, chunks)
    }

    /** The packet joins the stream, or some of it if the file fails. */
    ghost predicate Stores(before: seq<Byte>, bytes: seq<Byte>, more: bool)
      reads this, sink
    {
      if more then sink.stream == before + bytes else before <= sink.stream <= before + bytes
    }

    /** While recording there is one chunk message for the start and one for every whole chunk. */
    lemma ChunksReported()
      requires Valid() && state == Recording
      ensures track.chunks == |sink.stream| / sink.chunkSize + 1
    {
      sink.ChunksDone();
    }

    /** Nothing is recorded until clock and event are known; the packet that completes them is not. */
    method OnPreparing() returns (more: bool, ghost now: int)
      requires Valid() && state == Preparing
      modifies this
      ensures Valid() && more && (clock.ideal.Ready() ==> now == clock.ideal.Shown())
      ensures Prepares(old(View()), old(Hears()), now)
    {
      now := if clock.ideal.Ready() then clock.ideal.Shown() else 0;
      if clock.IsReady() && newEit.Some? {
        eit, newEit := newEit, None;
        var time := clock.Now();
        now := time;
        var pos := sink.ringPos;
        sink.RingPosition();
        sink.AtStart();
        assert pos < sink.ringSize;
        assert pos % sink.chunkSize == 0;
        Begin(time, pos);
      }
      more := true;
    }

    /** The first chunk message, and the first event unless it is already over. */
    method Begin(now: int, pos: nat)
      requires Trace() && track == Track(None, None, 0, 0) && eit.Some? && !eventStarted
      requires sink.stream == [] && sink.completed == 0
      requires pos == sink.layout.start == sink.chunkIndex * sink.chunkSize
      modifies this`out, this`stamps, this`track, this`state, this`boundaryTime, this`boundaryPos, this`eventStarted
      ensures Trace() && Agrees() && state == Recording
      ensures View() == old(View()).Begin(eit.value, now, pos)
    {
      state := Recording;
      Send(Chunk(now, pos));
      UpdateEventBoundary(now, pos);
      if NoEndTime(eit.value) || now < EndTime(eit.value) {
        StartEvent(eit.value);
        eventStarted := true;
      } else {
        eventStarted := false;
      }
    }

    /** Ends the open event at `time` and the current position. */
    method EndEvent(e: Event, time: int)
      requires Trace() && track.open == Some(e.id)
      requires sink.ringPos == RingPos(sink.layout.start, sink.layout.RingSize(), |sink.stream|)
      modifies this`out, this`stamps, this`track, this`boundaryTime, this`boundaryPos
      ensures Trace() && out == old(out) + [EventEnd(e, time, sink.ringPos)]
      ensures boundaryTime == time && boundaryPos == sink.ringPos
      ensures track == old(track).(open := None, boundary := Some(Boundary(time, sink.ringPos)))
    {
      UpdateEventBoundary(time, sink.ringPos);
      Send(EventEnd(e, boundaryTime, boundaryPos));
    }

    /** Starts an event where the last one ended. */
    method StartEvent(e: Event)
      requires Trace() && track.open.None? && track.boundary == Some(Boundary(boundaryTime, boundaryPos))
      modifies this`out, this`stamps, this`track
      ensures Trace() && out == old(out) + [EventStart(e, boundaryTime, boundaryPos)]
      ensures track == old(track).(open := Some(e.id))
    {
      Send(EventStart(e, boundaryTime, boundaryPos));
    }

    /** Ends and starts events: on a new event ID at once, otherwise at the event's end time. */
    method FollowEvents(now: int)
      requires Trace() && Agrees() && state == Recording
      requires sink.ringPos == RingPos(sink.layout.start, sink.layout.RingSize(), |sink.stream|)
      modifies this`out, this`stamps, this`track, this`boundaryTime, this`boundaryPos
      modifies this`eit, this`newEit, this`eventStarted
      ensures Trace() && Agrees() && state == Recording
      ensures
        var latest := if old(newEit).Some? then old(newEit) else old(eit);
        newEit.None? && eit == latest && View() == old(View()).Follow(old(eit).value, latest.value, now, sink.ringPos)
      ensures eventStarted && eit.value.id == old(eit).value.id && !NoEndTime(eit.value) ==> now < EndTime(eit.value)
    {
      var current := eit.value;
      var changed := false;
      if newEit.Some? {
        if eit.value.id != newEit.value.id {
          changed := true;
        } else {
          current := newEit.value;
        }
        eit, newEit := newEit, None;
      }
      if eventStarted {
        if changed {
          EndEvent(current, now);
          StartEvent(eit.value);
        } else if !NoEndTime(current) && now >= EndTime(current) {
          EndEvent(current, EndTime(current));
          eventStarted := false;
        }
      } else if changed {
        StartEvent(eit.value);
        eventStarted := true;
      }
    }

    method OnRecording(bytes: seq<Byte>) returns (more: bool, ghost now: int)
      requires Valid() && state == Recording && |bytes| == PKT_SIZE
      modifies this, sink, sink.file, sink.buf
      ensures more ==> Valid() && sink.broken == old(sink.broken)
      ensures !more ==> sink.broken && !sink.file.reliable
      ensures Trace() && sink.layout == old(sink.layout)
      ensures clock.ideal.Ready() ==> now == clock.ideal.Shown()
      ensures Records(old(View()), old(eit).value, old(Hears()), now, old(sink.ringPos), old(sink.completed))
      ensures Stores(old(sink.stream), bytes, more)
    {
      now := FollowClock();
      more := Store(bytes);
    }

    /** Sends the event messages that are due at the time of the clock. */
    method FollowClock() returns (now: int)
      requires Valid() && state == Recording
      modifies this`out, this`stamps, this`track, this`boundaryTime, this`boundaryPos
      modifies this`eit, this`newEit, this`eventStarted
      ensures Valid() && newEit.None?
      ensures clock.ideal.Ready() ==> now == clock.ideal.Shown()
      ensures
        var latest := if old(newEit).Some? then old(newEit) else old(eit);
        && old(eit).Some? && eit == latest
        && View() == old(View()).Follow(old(eit).value, latest.value, now, sink.ringPos)
    {
      now := clock.Now();
      sink.RingPosition();
      FollowEvents(now);
    }

    /** Hands the packet to the sink, which may report a chunk. */
    method Store(bytes: seq<Byte>) returns (more: bool)
      requires Valid() && state == Recording && |bytes| == PKT_SIZE
      modifies this`out, this`stamps, this`track, this`reported, sink, sink.file, sink.buf
      ensures more ==> Valid() && sink.broken == old(sink.broken)
      ensures !more ==> sink.broken && !sink.file.reliable
      ensures Trace() && sink.layout == old(sink.layout) && sink.ringSize > 0
      ensures Grew(old(out), old(sink.completed)) && Stores(old(sink.stream), bytes, more)
    {
      more := sink.HandlePacket(bytes);
    }

    method UpdateEventBoundary(time: int, pos: nat)
      modifies this`boundaryTime, this`boundaryPos
      ensures boundaryTime == time && boundaryPos == pos
    {
      boundaryTime, boundaryPos := time, pos;
    }

    /** Nothing that was heard is waiting to be looked at. */
    predicate Idle()
      reads this
    {
      state == Recording ==> newEit.None?
    }

    /** The recorder as seen from outside between two packets. */
    ghost function Taped(): Tape
      reads this, sink, clock
    {
      Tape(View(), Heard(if state == Preparing then newEit else eit, pmtPid, clock.ideal),
           if state == Preparing then None else Some(|sink.stream|))
    }

    /** One packet is one step of the tape; a failing file leaves a part of it. */
    method HandleInput(input: Input) returns (more: bool, ghost t: Times)
      requires Valid() && Idle() && ValidInput(sid, input)
      modifies this, sink, sink.file, sink.buf, clock, clock.baseline
      ensures more ==> Valid() && Idle() && sink.broken == old(sink.broken)
      ensures !more ==> sink.broken && !sink.file.reliable && old(state) == Recording
      ensures Trace() && sink.layout == old(sink.layout)
      ensures clock.ideal == old(Taped()).heard.After(sid, input.packet, input.tables).clock
      ensures clock.ideal.Ready() ==> t.now == t.chunk == clock.ideal.Shown()
      ensures more ==> Taped() == old(Taped()).After(sink.layout, sid, input, t)
      ensures !more ==> old(Taped()).Fails(sink.layout, sid, input, t, out)
      ensures if old(state) == Preparing then sink.stream == old(sink.stream)
              else Stores(old(sink.stream), input.packet.bytes, more)
    {
      sink.RingPosition();
      sink.ChunksDone();
      EventApart(Taped().heard, sid, input.packet, input.tables);
      ghost var now;
      more, now := HandlePacket(input.packet, input.tables);
      t := Times(now, if sink.completed == old(sink.completed) then now else reported);
      if more {
        sink.ChunksDone();
      }
    }

    /** The recorder has handled the first `n` inputs of a run. */
    ghost predicate Follows(inputs: seq<Input>, n: nat, times: seq<Times>)
      requires n <= |inputs| && n <= |times|
      reads this, sink, clock
    {
      && sink.layout.Valid()
      && Taped() == TapeAt(sink.layout, sid, inputs, times, n)
      && sink.stream == RecordedBytes(sid, inputs, n)
    }

    ghost predicate IsBlank()
      reads this, clock
    {
      View() == BLANK.log && Hears() == NOTHING_HEARD && state == Preparing
    }

    lemma StartsBlank(inputs: seq<Input>)
      requires Valid() && IsBlank()
      ensures Idle() && Follows(inputs, 0, [])
    {
    }

    /** The file has failed on input `n` of a run. */
    ghost predicate Failed(inputs: seq<Input>, n: nat, times: seq<Times>)
      requires n < |inputs| && n < |times|
      reads this, sink
    {
      && sink.layout.Valid()
      && TapeAt(sink.layout, sid, inputs, times, n).Fails(sink.layout, sid, inputs[n], times[n], out)
      && RecordedBytes(sid, inputs, n) <= sink.stream <= RecordedBytes(sid, inputs, n + 1)
    }

    /** The next input of a run. */
    method FollowInput(inputs: seq<Input>, n: nat, ghost times: seq<Times>) returns (more: bool, ghost t: Times)
      requires Valid() && Idle() && n == |times| && n < |inputs| && Follows(inputs, n, times)
      requires forall i :: 0 <= i < |inputs| ==> ValidInput(sid, inputs[i])
      modifies this, sink, sink.file, sink.buf, clock, clock.baseline
      ensures more ==> Valid() && Idle() && sink.broken == old(sink.broken) && Follows(inputs, n + 1, times + [t])
      ensures !more ==> sink.broken && !sink.file.reliable && Failed(inputs, n, times + [t])
      ensures Trace() && sink.layout == old(sink.layout)
      ensures TimeLegal(sid, inputs, n, t)
    {
      assert ValidInput(sid, inputs[n]);
      TapeMeans(sink.layout, sid, inputs, times, n);
      more, t := HandleInput(inputs[n]);
      TapePrefix(sink.layout, sid, inputs, times, t, n);
      RecordedStep(sid, inputs, n);
    }

    /** The recorder has handled the first `n` inputs, or the file has failed on the last of them. */
    ghost predicate Stands(inputs: seq<Input>, n: nat, times: seq<Times>, ok: bool)
      requires n <= |inputs|
      reads this, sink, sink.file, sink.buf, clock, clock.baseline
    {
      && n == |times| && AreLegal(sid, inputs, times) && Trace() && (sink.file.reliable ==> ok)
      && if ok then Valid() && Idle() && !sink.broken && Follows(inputs, n, times)
         else n > 0 && sink.broken && Failed(inputs, n - 1, times)
    }

    method FollowNext(inputs: seq<Input>, n: nat, ghost times: seq<Times>) returns (ok: bool, ghost t: Times)
      requires n < |inputs| && Stands(inputs, n, times, true)
      requires forall i :: 0 <= i < |inputs| ==> ValidInput(sid, inputs[i])
      modifies this, sink, sink.file, sink.buf, clock, clock.baseline
      ensures Stands(inputs, n + 1, times + [t], ok) && sink.layout == old(sink.layout)
    {
      ok, t := FollowInput(inputs, n, times);
      LegalNext(sid, inputs, times, t);
    }

    /** Handles the inputs one after the other until the file fails. */
    method FollowInputs(inputs: seq<Input>) returns (ok: bool, ghost times: seq<Times>)
      requires Stands(inputs, 0, [], true)
      requires forall i :: 0 <= i < |inputs| ==> ValidInput(sid, inputs[i])
      modifies this, sink, sink.file, sink.buf, clock, clock.baseline
      ensures |times| <= |inputs| && (ok ==> |times| == |inputs|)
      ensures Stands(inputs, |times|, times, ok) && sink.layout == old(sink.layout)
    {
      ok, times := true, [];
      var i := 0;
      while ok && i < |inputs|
        // An equivalence keeps the predicate whole, which makes it cheap to maintain.
        invariant 0 <= i == |times| <= |inputs| && (Stands(inputs, i, times, ok) <==> true)
        invariant sink.layout == old(sink.layout)
      {
        ghost var t;
        ok, t := FollowNext(inputs, i, times);
        times := times + [t];
        i := i + 1;
      }
    }

    method End()
      requires Trace()
      modifies this`out, this`stamps, this`track
      ensures Trace() && out == old(out) + [Stop(sink.broken)] && track == old(track)
    {
      Send(Stop(sink.broken));
    }
  }

  // Whole runs

  ghost function Concat(packets: seq<seq<Byte>>, n: nat): seq<Byte>
    requires n <= |packets|
  {
    if n == 0 then [] else Concat(packets, n - 1) + packets[n - 1]
  }

  /**
   Every run of the sink in which no file operation fails, and over a reliable file every run, whatever
   the lengths of the writes: file and buffer together are the plain byte ring of all the packets.
   */
  method WritePackets(contents: seq<Byte>, reliable: bool, chunkSize: nat, numChunks: nat, pos: nat,
                      packets: seq<seq<Byte>>)
    returns (ok: bool, image: seq<Byte>, pending: seq<Byte>, ringPos: nat)
    requires 0 < chunkSize <= MAX_CHUNK_SIZE && chunkSize % BUFFER_SIZE == 0
    requires 0 < numChunks <= MAX_NUM_CHUNKS
    requires pos < chunkSize * numChunks && pos % chunkSize == 0
    requires forall i :: 0 <= i < |packets| ==> |packets[i]| == PKT_SIZE
    ensures reliable ==> ok
    ensures ok ==>
              var stream := Concat(packets, |packets|);
              && ringPos == RingPos(pos, chunkSize * numChunks, |stream|)
              && |pending| == |stream| % 8192 <= |stream|
              && pending == stream[|stream| - |pending|..]
              && IsRingImage(image, contents, pos, chunkSize * numChunks, stream, |stream| - |pending|)
  {
    var file := new File(contents, reliable);
    var sink := new RingFileSink(file, chunkSize, numChunks);
    image, pending, ringPos := [], [], 0;
    if pos != 0 {
      ok := sink.SetPosition(pos);
      if !ok {
        return;
      }
    }
    ok := StorePackets(sink, packets);
    if ok {
      sink.RingPosition();
      sink.BufferFill();
      image, pending, ringPos := file.contents, sink.buf[..sink.bufPos], sink.ringPos;
    }
  }

  /** Hands the packets to an empty sink one after the other, until an operation fails. */
  method StorePackets(sink: RingFileSink, packets: seq<seq<Byte>>) returns (ok: bool)
    requires sink.Valid() && sink.observer == null && sink.stream == []
    requires forall i :: 0 <= i < |packets| ==> |packets[i]| == PKT_SIZE
    modifies sink, sink.file, sink.buf
    ensures ok ==> sink.Valid() && sink.stream == Concat(packets, |packets|)
    ensures sink.layout == old(sink.layout) && (sink.file.reliable ==> ok)
  {
    for i := 0 to |packets|
      // An equivalence keeps the predicate whole, which makes it cheap to maintain.
      invariant (sink.Valid() <==> true) && sink.observer == null && sink.layout == old(sink.layout)
      invariant sink.stream == Concat(packets, i)
    {
      ok := sink.HandlePacket(packets[i]);
      if !ok {
        return;
      }
    }
    return true;
  }

  /** What the upstream service filter guarantees: every accepted PAT lists the service. */
  predicate ValidInput(sid: int, input: Input) {
    && |input.packet.bytes| == PKT_SIZE
    && forall i :: 0 <= i < |input.tables| ==>
        input.tables[i].Pat? && Acceptable(input.tables[i]) ==> sid in input.tables[i].pmts
  }

  /** What the first `n` inputs have told. */
  ghost function HeardAt(sid: int, inputs: seq<Input>, n: nat): (h: Heard)
    requires n <= |inputs|
    ensures h.clock.Valid()
  {
    if n == 0 then NOTHING_HEARD
    else HeardAt(sid, inputs, n - 1).After(sid, inputs[n - 1].packet, inputs[n - 1].tables)
  }

  /** The number of inputs after which clock and event are first known, if that happens within `n`. */
  ghost function BeginBy(sid: int, inputs: seq<Input>, n: nat): (begin: Option<nat>)
    requires n <= |inputs|
    ensures begin.Some? ==> begin.value <= n && HeardAt(sid, inputs, n).event.Some?
  {
    if n == 0 then None
    else if BeginBy(sid, inputs, n - 1).Some? then BeginBy(sid, inputs, n - 1)
    else if HeardAt(sid, inputs, n).Complete() then Some(n)
    else None
  }

  /** It is indeed the first one. */
  lemma {:induction false} BeginIsFirst(sid: int, inputs: seq<Input>, n: nat)
    requires n <= |inputs|
    ensures
      var begin := BeginBy(sid, inputs, n);
      && (begin.Some? ==> HeardAt(sid, inputs, begin.value).Complete())
      && forall m: nat :: m <= n && (begin.Some? ==> m < begin.value) ==> !HeardAt(sid, inputs, m).Complete()
  {
    if n > 0 {
      BeginIsFirst(sid, inputs, n - 1);
    }
  }

  /** The bytes of inputs `b` to `n`. */
  ghost function BytesOf(inputs: seq<Input>, b: nat, n: nat): seq<Byte>
    requires b <= n <= |inputs|
  {
    if n == b then [] else BytesOf(inputs, b, n - 1) + inputs[n - 1].packet.bytes
  }

  /** Messages carry the time of the clock whenever it is ready. */
  ghost predicate TimeLegal(sid: int, inputs: seq<Input>, n: nat, t: Times)
    requires n < |inputs|
  {
    var clock := HeardAt(sid, inputs, n + 1).clock;
    clock.Ready() ==> t.now == t.chunk == clock.Shown()
  }

  ghost predicate AreLegal(sid: int, inputs: seq<Input>, times: seq<Times>) {
    |times| <= |inputs| && forall i :: 0 <= i < |times| ==> TimeLegal(sid, inputs, i, times[i])
  }

  lemma LegalNext(sid: int, inputs: seq<Input>, times: seq<Times>, t: Times)
    requires AreLegal(sid, inputs, times) && |times| < |inputs| && TimeLegal(sid, inputs, |times|, t)
    ensures AreLegal(sid, inputs, times + [t])
  {
  }

  const BLANK: Tape := Tape(Log([Message.Start], false, Boundary(0, 0)), NOTHING_HEARD, None)

  /** Everything that is to be sent for the first `n` inputs. */
  ghost function TapeAt(l: Layout, sid: int, inputs: seq<Input>, times: seq<Times>, n: nat): (tape: Tape)
    requires l.Valid() && n <= |inputs| && n <= |times|
    ensures tape.Valid()
  {
    if n == 0 then BLANK
    else TapeAt(l, sid, inputs, times, n - 1).After(l, sid, inputs[n - 1], times[n - 1])
  }

  /** The packets that follow the one which made clock and event known. */
  ghost function RecordedBytes(sid: int, inputs: seq<Input>, n: nat): seq<Byte>
    requires n <= |inputs|
  {
    match BeginBy(sid, inputs, n)
    case None => []
    case Some(b) => BytesOf(inputs, b, n)
  }

  /** The tape has heard everything, and runs from the first input after which clock and event are known. */
  lemma {:induction false} TapeMeans(l: Layout, sid: int, inputs: seq<Input>, times: seq<Times>, n: nat)
    requires l.Valid() && n <= |inputs| && n <= |times|
    ensures
      var tape := TapeAt(l, sid, inputs, times, n);
      && tape.heard == HeardAt(sid, inputs, n)
      && tape.recorded ==
         match BeginBy(sid, inputs, n)
         case None => None
         case Some(b) => Some(PKT_SIZE * (n - b))
  {
    if n > 0 {
      TapeMeans(l, sid, inputs, times, n - 1);
      AfterMeans(TapeAt(l, sid, inputs, times, n - 1), TapeAt(l, sid, inputs, times, n), l, sid, inputs[n - 1],
                 times[n - 1]);
    }
  }

  lemma {:induction false} AfterMeans(tape: Tape, next: Tape, l: Layout, sid: int, input: Input, t: Times)
    requires tape.Valid() && l.Valid() && next == tape.After(l, sid, input, t)
    ensures next.heard == tape.heard.After(sid, input.packet, input.tables)
    ensures next.recorded == if tape.recorded.Some? then Some(tape.recorded.value + PKT_SIZE)
                             else if next.heard.Complete() then Some(0) else None
  {
  }

  lemma RecordedStep(sid: int, inputs: seq<Input>, n: nat)
    requires n < |inputs|
    ensures RecordedBytes(sid, inputs, n + 1) ==
            if BeginBy(sid, inputs, n).None? then [] else RecordedBytes(sid, inputs, n) + inputs[n].packet.bytes
  {
  }

  /** Later times do not matter. */
  lemma {:induction false} TapePrefix(l: Layout, sid: int, inputs: seq<Input>, times: seq<Times>, t: Times, n: nat)
    requires l.Valid() && n <= |inputs| && n <= |times|
    ensures TapeAt(l, sid, inputs, times + [t], n) == TapeAt(l, sid, inputs, times, n)
  {
    if n > 0 {
      TapePrefix(l, sid, inputs, times, t, n - 1);
    }
  }

  lemma {:induction false} EventApartTables(h: Heard, sid: int, tables: seq<Table>, n: nat)
    requires n <= |tables|
    ensures
      var a, f := h.AfterTables(sid, tables, n), h.(event := None).AfterTables(sid, tables, n);
      a == f.(event := if f.event.Some? then f.event else h.event)
  {
    if n > 0 {
      EventApartTables(h, sid, tables, n - 1);
    }
  }

  /** Forgetting the event does not change anything else that is heard. */
  lemma EventApart(h: Heard, sid: int, packet: Packet, tables: seq<Table>)
    requires h.clock.Valid()
    ensures
      var a, f := h.After(sid, packet, tables), h.(event := None).After(sid, packet, tables);
      a == f.(event := if f.event.Some? then f.event else h.event)
  {
    EventApartTables(h.AfterPcr(packet), sid, tables, |tables|);
  }

  /** A whole run has sent the messages of the tape, and the file holds what was recorded up to the last full buffer. */
  ghost predicate IsRecorded(l: Layout, sid: int, inputs: seq<Input>, times: seq<Times>, out: seq<Message>,
                             stream: seq<Byte>, image: seq<Byte>)
    requires l.Valid()
  {
    && |times| == |inputs|
    && out == TapeAt(l, sid, inputs, times, |inputs|).log.out + [Stop(false)]
    && stream == RecordedBytes(sid, inputs, |inputs|)
    && IsRingImage(image, l.before, l.start, l.RingSize(), stream, |stream| - |stream| % BUFFER_SIZE)
    && (BeginBy(sid, inputs, |inputs|).Some? ==> TrackAt(out, |out|).chunks == |stream| / l.chunkSize + 1)
  }

  /** The run has stopped at the input on which the file failed. */
  ghost predicate IsBroken(l: Layout, sid: int, inputs: seq<Input>, times: seq<Times>, out: seq<Message>,
                           stream: seq<Byte>)
    requires l.Valid() && |times| <= |inputs|
  {
    var n := |times| - 1;
    && n >= 0 && out != [] && out[|out| - 1] == Stop(true)
    && TapeAt(l, sid, inputs, times, n).Fails(l, sid, inputs[n], times[n], out[..|out| - 1])
    && RecordedBytes(sid, inputs, n) <= stream <= RecordedBytes(sid, inputs, n + 1)
  }

  /**
   Every run of the recorder that gets its start position. While no file operation fails, which over a
   reliable file is always, the messages are those of the tape, the stream is the packets that follow
   the one which made clock and event known, the file is the ring image of all of it but the unfilled
   buffer, and there is a chunk message for the start and one per whole chunk. A run that fails stops
   there, and says so. In any case the messages are well formed, and stamped with prefixes of the stream.
   */
  method Record(sid: int, contents: seq<Byte>, reliable: bool, chunkSize: nat, numChunks: nat, startPos: nat,
                inputs: seq<Input>)
    returns (started: bool, ok: bool, out: seq<Message>, image: seq<Byte>,
             ghost stamps: seq<Stamp>, ghost stream: seq<Byte>, ghost times: seq<Times>)
    requires 0 < chunkSize <= MAX_CHUNK_SIZE && chunkSize % BUFFER_SIZE == 0
    requires 0 < numChunks <= MAX_NUM_CHUNKS
    requires startPos < chunkSize * numChunks && startPos % chunkSize == 0
    requires forall i :: 0 <= i < |inputs| ==> ValidInput(sid, inputs[i])
    ensures reliable || startPos == 0 ==> started
    ensures reliable ==> ok
    ensures !started ==> !ok && out == [] && image == contents
    ensures started ==>
              var l := Layout(chunkSize, numChunks, startPos, contents);
              && WellFormed(l, out, stamps)
              && |times| <= |inputs|
              && (forall i :: 0 <= i < |times| ==> TimeLegal(sid, inputs, i, times[i]))
              && (forall i :: 0 <= i < |stamps| ==> stamps[i].stream <= stream)
              && if ok then IsRecorded(l, sid, inputs, times, out, stream, image)
                 else IsBroken(l, sid, inputs, times, out, stream)
  {
    var recorder;
    started, recorder := StartRecorder(sid, contents, reliable, chunkSize, numChunks, startPos);
    if !started {
      return false, false, [], contents, [], [], [];
    }
    recorder.StartsBlank(inputs);
    ok, times := RecordInputs(recorder, inputs);
    out, image := recorder.out, recorder.sink.file.contents;
    stamps, stream := recorder.stamps, recorder.sink.stream;
  }

  method StartRecorder(sid: int, contents: seq<Byte>, reliable: bool, chunkSize: nat, numChunks: nat, startPos: nat)
    returns (started: bool, recorder: ServiceRecorder)
    requires 0 < chunkSize <= MAX_CHUNK_SIZE && chunkSize % BUFFER_SIZE == 0
    requires 0 < numChunks <= MAX_NUM_CHUNKS
    requires startPos < chunkSize * numChunks && startPos % chunkSize == 0
    ensures fresh(recorder) && fresh(recorder.sink) && fresh(recorder.sink.file) && fresh(recorder.sink.buf)
    ensures fresh(recorder.clock) && fresh(recorder.clock.baseline)
    ensures recorder.sid == sid && recorder.sink.file.reliable == reliable && !recorder.sink.broken
    ensures reliable || startPos == 0 ==> started
    ensures started ==> recorder.Valid() && recorder.IsBlank()
    ensures started ==> recorder.sink.layout == Layout(chunkSize, numChunks, startPos, contents)
  {
    var file := new File(contents, reliable);
    var sink := new RingFileSink(file, chunkSize, numChunks);
    recorder := new ServiceRecorder(sid, startPos, sink);
    started := recorder.Start();
  }

  /** The run of a recorder that has been started. */
  method RecordInputs(recorder: ServiceRecorder, inputs: seq<Input>) returns (ok: bool, ghost times: seq<Times>)
    requires recorder.Stands(inputs, 0, [], true)
    requires forall i :: 0 <= i < |inputs| ==> ValidInput(recorder.sid, inputs[i])
    modifies recorder, recorder.sink, recorder.sink.file, recorder.sink.buf, recorder.clock, recorder.clock.baseline
    ensures recorder.sink.layout == old(recorder.sink.layout)
    ensures recorder.sink.file.reliable ==> ok
    ensures WellFormed(recorder.sink.layout, recorder.out, recorder.stamps)
    ensures |times| <= |inputs|
    ensures forall i :: 0 <= i < |times| ==> TimeLegal(recorder.sid, inputs, i, times[i])
    ensures forall i :: 0 <= i < |recorder.stamps| ==> recorder.stamps[i].stream <= recorder.sink.stream
    ensures
      if ok then
        IsRecorded(recorder.sink.layout, recorder.sid, inputs, times, recorder.out, recorder.sink.stream,
                   recorder.sink.file.contents)
      else
        IsBroken(recorder.sink.layout, recorder.sid, inputs, times, recorder.out, recorder.sink.stream)
  {
    ok, times := recorder.FollowInputs(inputs);
    if ok {
      EndRecording(recorder, inputs, times);
    } else {
      ghost var sent := recorder.out;
      recorder.End();
      assert recorder.out[..|recorder.out| - 1] == sent;
    }
  }

  /** The end of a recording without a failure. */
  method EndRecording(recorder: ServiceRecorder, inputs: seq<Input>, ghost times: seq<Times>)
    requires |times| == |inputs| && recorder.Valid() && !recorder.sink.broken
    requires recorder.Follows(inputs, |inputs|, times)
    modifies recorder`out, recorder`stamps, recorder`track
    ensures recorder.Trace()
    ensures IsRecorded(recorder.sink.layout, recorder.sid, inputs, times, recorder.out, recorder.sink.stream,
                       recorder.sink.file.contents)
  {
    FinishRecording(recorder, inputs, times);
    recorder.End();
  }

  /** What is known when all inputs have been handled. */
  lemma FinishRecording(recorder: ServiceRecorder, inputs: seq<Input>, times: seq<Times>)
    requires |times| == |inputs| && recorder.Valid() && recorder.Follows(inputs, |inputs|, times)
    ensures
      var sink, stream := recorder.sink, recorder.sink.stream;
      && sink.bufPos == |stream| % BUFFER_SIZE
      && (BeginBy(recorder.sid, inputs, |inputs|).Some? ==> recorder.track.chunks == |stream| / sink.chunkSize + 1)
  {
    recorder.sink.BufferFill();
    TapeMeans(recorder.sink.layout, recorder.sid, inputs, times, |inputs|);
    if recorder.state == Recording {
      recorder.ChunksReported();
    }
  }
}
