/**
 The packet source: a sliding buffer over a byte stream that arrives in reads of any size, with
 resynchronisation when a packet does not start with the sync byte (section 2.4.3.3 of
 ISO/IEC 13818-1).

 The buffered reader is proved to deliver exactly what a scan of the whole stream delivers.
 */
module PacketSource {
  import opened Tables

  const SYNC_BYTE: Byte := 0x47
  const MAX_DROP_BYTES := 2 * PKT_SIZE
  const MAX_RESYNC_BYTES := MAX_DROP_BYTES + 3 * PKT_SIZE
  const READ_CHUNK_SIZE := 4 * 4096
  const BUFFER_SIZE := READ_CHUNK_SIZE + MAX_RESYNC_BYTES

  // The scan of a whole stream

  /** Four sync bytes one packet apart, the first at `k`. */
  predicate Aligned(data: seq<Byte>, k: nat)
    requires k + 3 * PKT_SIZE < |data|
  {
    && data[k] == SYNC_BYTE
    && data[k + 1 * PKT_SIZE] == SYNC_BYTE
    && data[k + 2 * PKT_SIZE] == SYNC_BYTE
    && data[k + 3 * PKT_SIZE] == SYNC_BYTE
  }

  /** The first aligned offset from `k` on and below `end`. */
  ghost function FirstAligned(data: seq<Byte>, k: nat, end: nat): (r: Option<nat>)
    requires end + 3 * PKT_SIZE <= |data|
    ensures r.Some? ==> k <= r.value < end && Aligned(data, r.value)
    decreases end - k
  {
    if k >= end then None
    else if Aligned(data, k) then Some(k)
    else FirstAligned(data, k + 1, end)
  }

  lemma {:induction false} FirstAlignedIsLeast(data: seq<Byte>, k: nat, end: nat)
    requires end + 3 * PKT_SIZE <= |data|
    ensures
      var r := FirstAligned(data, k, end);
      forall j: nat :: k <= j < (if r.Some? then r.value else end) ==> !Aligned(data, j)
    decreases end - k
  {
    if k < end && !Aligned(data, k) {
      FirstAlignedIsLeast(data, k + 1, end);
    }
  }

  /** Where the next packet at or after `from` starts, if there is one. */
  ghost function NextStart(data: seq<Byte>, from: nat): (r: Option<nat>)
    ensures r.Some? ==> from <= r.value && r.value + PKT_SIZE <= |data| && data[r.value] == SYNC_BYTE
  {
    if from + PKT_SIZE > |data| then None
    else if data[from] == SYNC_BYTE then Some(from)
    else if from + MAX_RESYNC_BYTES > |data| then None
    else FirstAligned(data, from, from + MAX_DROP_BYTES)
  }

  /** The byte 0x47 at `k` and three times 188 bytes further. */
  predicate HasFourSyncs(data: seq<Byte>, k: nat) {
    k + 564 < |data| && data[k] == 0x47 && data[k + 188] == 0x47 && data[k + 376] == 0x47 && data[k + 564] == 0x47
  }

  /**
   A packet starts here if there is a sync byte; otherwise where, within two packets, four sync bytes a packet
   apart first appear, provided that there are five packets of data to look at.
   */
  lemma NextStartIff(data: seq<Byte>, from: nat, k: nat)
    ensures NextStart(data, from) == Some(k) <==>
            && from + 188 <= |data|
            && if data[from] == 0x47 then k == from
               else
                 && from + 940 <= |data| && from <= k < from + 376 && HasFourSyncs(data, k)
                 && forall j: nat :: from <= j < k ==> !HasFourSyncs(data, j)
  {
    if from + 940 <= |data| {
      FirstAlignedIsLeast(data, from, from + 376);
      assert forall j: nat :: j + 564 < |data| ==> (Aligned(data, j) <==> HasFourSyncs(data, j));
    }
  }

  /** How many bytes the first `n` packets of the scan use up, if it delivers that many. */
  ghost function Consumed(data: seq<Byte>, n: nat): (r: Option<nat>)
    ensures r.Some? ==> r.value <= |data| && (n > 0 ==> PKT_SIZE <= r.value)
  {
    if n == 0 then Some(0)
    else
      match Consumed(data, n - 1)
      case None => None
      case Some(from) =>
        match NextStart(data, from)
        case None => None
        case Some(k) => Some(k + PKT_SIZE)
  }

  /** `packet` is the `n`-th packet, from zero, that the scan delivers. */
  ghost predicate Scanned(data: seq<Byte>, n: nat, packet: seq<Byte>) {
    var end := Consumed(data, n + 1);
    end.Some? && packet == data[end.value - PKT_SIZE..end.value]
  }

  /** `packets` is everything the scan delivers. */
  ghost predicate IsScan(data: seq<Byte>, packets: seq<seq<Byte>>) {
    && (forall i :: 0 <= i < |packets| ==> Scanned(data, i, packets[i]))
    && Consumed(data, |packets| + 1).None?
  }

  /** `data` is `skip` bytes and then `packets`, one after the other. */
  ghost predicate Joined(data: seq<Byte>, skip: nat, packets: seq<seq<Byte>>) {
    && |data| == skip + PKT_SIZE * |packets|
    && forall i :: 0 <= i < |packets| ==>
        var at := skip + PKT_SIZE * i;
        packets[i] == data[at..at + PKT_SIZE] && data[at] == SYNC_BYTE
  }

  /** Once at the first of some joined packets, the scan delivers exactly those. */
  lemma {:induction false} JoinedPackets(data: seq<Byte>, skip: nat, packets: seq<seq<Byte>>, n: nat)
    requires Joined(data, skip, packets) && 0 < n <= |packets|
    requires NextStart(data, 0) == Some(skip)
    ensures Consumed(data, n) == Some(skip + PKT_SIZE * n)
    ensures Scanned(data, n - 1, packets[n - 1])
  {
    assert packets[n - 1] == data[skip + PKT_SIZE * (n - 1)..skip + PKT_SIZE * n];
    if n > 1 {
      JoinedPackets(data, skip, packets, n - 1);
    } else {
      assert Consumed(data, 0) == Some(0);
    }
  }

  /**
   A stream of whole packets comes back as it was. So does one behind garbage, when the packets
   start where the resynchronisation finds the first aligned offset.
   */
  lemma ScanRoundTrip(data: seq<Byte>, skip: nat, packets: seq<seq<Byte>>)
    requires Joined(data, skip, packets) && packets != []
    requires skip == 0 ||
             (data[0] != SYNC_BYTE && |data| >= MAX_RESYNC_BYTES &&
              FirstAligned(data, 0, MAX_DROP_BYTES) == Some(skip))
    ensures IsScan(data, packets)
  {
    assert NextStart(data, 0) == Some(skip) by {
      assert packets[0] == data[skip..skip + PKT_SIZE];
    }
    forall i | 0 <= i < |packets|
      ensures Scanned(data, i, packets[i])
    {
      JoinedPackets(data, skip, packets, i + 1);
    }
    JoinedPackets(data, skip, packets, |packets|);
    assert NextStart(data, |data|).None?;
  }

  // The buffered reader

  /** A readable file; each read delivers any positive amount until the data is used up. */
  class InputFile {
    const data: seq<Byte>
    var offset: nat

    constructor (data: seq<Byte>)
      ensures this.data == data && offset == 0
    {
      this.data, offset := data, 0;
    }

    method Read(buf: array<Byte>, at: nat, len: nat) returns (n: int)
      requires at + len <= buf.Length && len > 0 && offset <= |data|
      modifies this, buf
      ensures old(offset) <= offset <= |data| && n <= len
      ensures n <= 0 ==> old(offset) == offset == |data|
      ensures n > 0 ==> offset == old(offset) + n
      ensures forall i :: at <= i < at + n ==> buf[i] == data[old(offset) + i - at]
      ensures forall i :: 0 <= i < buf.Length && !(at <= i < at + n) ==> buf[i] == old(buf[i])
    {
      var left := |data| - offset;
      if left == 0 {
        n := *;
        n := if n < 0 then -1 else 0;
        return;
      }
      n := *;
      if n <= 0 || n > len || n > left {
        n := 1;
      }
      forall i | 0 <= i < n {
        buf[at + i] := data[offset + i];
      }
      offset := offset + n;
    }
  }

  class FileSource {
    const file: InputFile
    const buf: array<Byte>
    var eof: bool
    var pos: nat
    var end: nat

    constructor (file: InputFile)
      requires file.offset <= |file.data|
      ensures Valid() && !eof && this.file == file && fresh(buf)
      ensures Cursor() == file.offset
    {
      this.file := file;
      buf := new Byte[BUFFER_SIZE];
      eof, pos, end := false, 0, 0;
    }

    /** The buffer is a window onto the file that ends at the file's read offset. */
    ghost predicate Valid()
      reads this, file, buf
    {
      && buf.Length == BUFFER_SIZE
      && pos <= end <= BUFFER_SIZE
      && end - pos <= file.offset <= |file.data|
      && forall i {:trigger buf[i]} :: pos <= i < end ==> buf[i] == file.data[file.offset - end + i]
    }

    /** How many bytes of the file have been consumed. */
    ghost function Cursor(): nat
      requires Valid()
      reads this, file, buf
    {
      file.offset - (end - pos)
    }

    /** Moves the buffered bytes to the front. */
    method Compact()
      requires Valid()
      modifies this, buf
      ensures Valid() && Cursor() == old(Cursor()) && pos == 0 && end == old(end - pos)
      ensures eof == old(eof)
    {
      var avail := end - pos;
      forall i | 0 <= i < avail {
        buf[i] := buf[pos + i];
      }
      assert forall i :: 0 <= i < avail ==> buf[i] == file.data[file.offset - avail + i] by {
        forall i | 0 <= i < avail
          ensures buf[i] == file.data[file.offset - avail + i]
        {
          assert buf[i] == old(buf[pos + i]);
        }
      }
      pos := 0;
      end := avail;
    }

    /** Succeeds exactly when the stream still holds `min` bytes, and consumes nothing. */
    method FillBuffer(min: nat) returns (ok: bool)
      requires Valid() && !eof && min <= MAX_RESYNC_BYTES
      modifies this, file, buf
      ensures Valid() && Cursor() == old(Cursor())
      ensures ok <==> |file.data| - Cursor() >= min
      ensures eof == !ok
      ensures ok ==> end - pos >= min
    {
      if end - pos >= min {
        return true;
      }
      Compact();
      while end < min
        invariant Valid() && !eof && pos == 0 && Cursor() == old(Cursor())
        decreases |file.data| - file.offset
      {
        assert BUFFER_SIZE - end >= READ_CHUNK_SIZE;
        var n := file.Read(buf, end, READ_CHUNK_SIZE);
        if n <= 0 {
          eof := true;
          return false;
        }
        end := end + n;
      }
      return true;
    }

    predicate ValidateResync()
      requires buf.Length == BUFFER_SIZE && pos + 3 * PKT_SIZE < BUFFER_SIZE
      reads this, buf
    {
      && buf[pos + 1 * PKT_SIZE] == SYNC_BYTE
      && buf[pos + 2 * PKT_SIZE] == SYNC_BYTE
      && buf[pos + 3 * PKT_SIZE] == SYNC_BYTE
    }

    /** Moves to the first aligned offset, if the stream has one within the drop limit. */
    method Resync() returns (ok: bool)
      requires Valid() && !eof
      modifies this, file, buf
      ensures Valid() && old(Cursor()) <= Cursor()
      ensures ok ==> !eof && end - pos >= PKT_SIZE
      ensures ok == (old(Cursor()) + MAX_RESYNC_BYTES <= |file.data|
                     && FirstAligned(file.data, old(Cursor()), old(Cursor()) + MAX_DROP_BYTES).Some?)
      ensures ok ==> FirstAligned(file.data, old(Cursor()), old(Cursor()) + MAX_DROP_BYTES) == Some(Cursor())
    {
      var filled := FillBuffer(MAX_RESYNC_BYTES);
      if !filled {
        return false;
      }
      ghost var start := pos;
      var resyncEnd := pos + MAX_DROP_BYTES;
      while pos < resyncEnd
        invariant start <= pos <= resyncEnd && start + MAX_RESYNC_BYTES <= end
        // An equivalence keeps the predicate whole, which makes it cheap to maintain.
        invariant (Valid() <==> true) && !eof && Cursor() == old(Cursor()) + (pos - start)
        invariant FirstAligned(file.data, Cursor(), old(Cursor()) + MAX_DROP_BYTES)
                  == FirstAligned(file.data, old(Cursor()), old(Cursor()) + MAX_DROP_BYTES)
      {
        assert Aligned(file.data, Cursor()) <==> buf[pos] == SYNC_BYTE && ValidateResync();
        if buf[pos] != SYNC_BYTE {
          pos := pos + 1;
          continue;
        }
        if ValidateResync() {
          return true;
        }
        pos := pos + 1;
      }
      return false;
    }

    /** Copies one packet out of the buffer. */
    method Take() returns (bytes: seq<Byte>)
      requires Valid() && end - pos >= PKT_SIZE
      modifies this
      ensures Valid() && Cursor() == old(Cursor()) + PKT_SIZE && eof == old(eof)
      ensures bytes == file.data[old(Cursor())..Cursor()]
    {
      bytes := buf[pos..pos + PKT_SIZE];
      pos := pos + PKT_SIZE;
    }

    /** Delivers the next packet of the scan, or nothing where the scan ends. */
    method GetNextPacket() returns (packet: Option<seq<Byte>>)
      requires Valid() && !eof
      modifies this, file, buf
      ensures Valid()
      ensures packet.None? ==> NextStart(file.data, old(Cursor())).None?
      ensures packet.Some? ==>
                && !eof && PKT_SIZE <= Cursor()
                && NextStart(file.data, old(Cursor())) == Some(Cursor() - PKT_SIZE)
                && packet.value == file.data[Cursor() - PKT_SIZE..Cursor()]
    {
      var filled := FillBuffer(PKT_SIZE);
      if !filled {
        return None;
      }
      assert buf[pos] == file.data[Cursor()];
      if buf[pos] != SYNC_BYTE {
        var synced := Resync();
        if !synced {
          return None;
        }
        assert buf[pos] == SYNC_BYTE;
      }
      assert NextStart(file.data, old(Cursor())) == Some(Cursor());
      var bytes := Take();
      packet := Some(bytes);
    }
  }

  /**
   Whatever the sizes of the reads, the sink gets the packets of the scan, up to and including the
   one it refuses. `refused` is the index of that packet; a sink that accepts all of them has it at
   or after the end of the scan.
   */
  method FeedPackets(data: seq<Byte>, refused: nat) returns (delivered: seq<seq<Byte>>)
    ensures forall i :: 0 <= i < |delivered| ==> Scanned(data, i, delivered[i])
    ensures |delivered| == refused + 1 || (|delivered| <= refused && IsScan(data, delivered))
  {
    var file := new InputFile(data);
    var source := new FileSource(file);
    delivered := [];
    while true
      invariant fresh(file) && fresh(source) && fresh(source.buf) && source.file == file
      invariant source.Valid() && !source.eof && file.data == data
      invariant Consumed(data, |delivered|) == Some(source.Cursor())
      invariant forall i :: 0 <= i < |delivered| ==> Scanned(data, i, delivered[i])
      invariant |delivered| <= refused
      decreases refused - |delivered|
    {
      var next := source.GetNextPacket();
      if next.None? {
        return;
      }
      assert Scanned(data, |delivered|, next.value);
      delivered := delivered + [next.value];
      if |delivered| == refused + 1 {
        return;
      }
    }
  }
}
