/**
 What the stream engines see of a transport stream: packets with their decoded header fields, and
 the tables that the demultiplexer completes while packets are fed to it.
 */
module Tables {
  type Byte = b: int | 0 <= b < 256
  type Pid = p: int | 0 <= p < 0x2000

  const PKT_SIZE := 188

  const PID_PAT: Pid := 0x0000
  const PID_CAT: Pid := 0x0001
  const PID_NIT: Pid := 0x0010
  const PID_SDT: Pid := 0x0011
  const PID_EIT: Pid := 0x0012
  const PID_RST: Pid := 0x0013
  const PID_TOT: Pid := 0x0014
  const PID_BIT: Pid := 0x0024
  const PID_CDT: Pid := 0x0029
  const PID_NULL: Pid := 0x1FFF

  datatype Option<+T> = None | Some(value: T)

  type Count = n: int | n > 0 witness 1

  /** `pcr` is absent when the packet has none, or one marked as invalid; it may still be out of range. */
  datatype Packet = Packet(pid: Pid, pusi: bool, pcr: Option<int>, bytes: seq<Byte>)

  /** Times are in milliseconds, durations in seconds; zero or less means unspecified. */
  datatype Event = Event(id: int, start: int, duration: int)

  datatype Kind = Video | Audio | OtherStream
  datatype Stream = Stream(kind: Kind, tag: Option<int>)

  /**
   A completed table. `source` is the PID it arrived on and `first` the index, counted from the
   start of the stream, of the packet it began in. `packets` is how many packets a PMT takes once the
   streams that are not asked for have been left out.
   */
  datatype Table =
    | Pat(source: Pid, first: nat, valid: bool, tsid: int, pmts: map<int, Pid>)
    | Cat(valid: bool, caPids: seq<Pid>)
    | Pmt(source: Pid, first: nat, valid: bool, sid: int, pcrPid: Pid, caPids: seq<Pid>, streams: map<Pid, Stream>,
          packets: Count)
    | Eit(valid: bool, sid: int, events: seq<Event>)
    | Tot(valid: bool, time: int)

  /** A PAT that the engines accept: on its own PID, intact, and not the one with a zero TSID. */
  predicate Acceptable(t: Table)
    requires t.Pat?
  {
    t.source == PID_PAT && t.valid && t.tsid != 0
  }

  /** A packet, and the tables that feeding it to the demultiplexer completes. */
  datatype Input = Input(packet: Packet, tables: seq<Table>)

  /** An input whose packet has no payload. */
  function Plain(pid: Pid, pcr: Option<int>, tables: seq<Table>): Input {
    Input(Packet(pid, true, pcr, []), tables)
  }

  /** The tables of the first `n` inputs, one after the other. */
  ghost function AllTables(inputs: seq<Input>, n: nat): seq<Table>
    requires n <= |inputs|
  {
    if n == 0 then [] else AllTables(inputs, n - 1) + inputs[n - 1].tables
  }

  /** A PMT of the service that can be used. */
  predicate IsPmtOf(sid: int, t: Table) {
    t.Pmt? && t.valid && t.sid == sid
  }

  /** Table `j` is the last usable PMT of the service. */
  ghost predicate LastPmt(sid: int, tables: seq<Table>, j: int) {
    && 0 <= j < |tables| && IsPmtOf(sid, tables[j])
    && forall i :: j < i < |tables| ==> !IsPmtOf(sid, tables[i])
  }

  /** One more table is the last PMT, or leaves the last one as it was. */
  lemma LastPmtNext(sid: int, tables: seq<Table>, t: Table)
    ensures forall j :: LastPmt(sid, tables + [t], j) <==>
                        if IsPmtOf(sid, t) then j == |tables| else LastPmt(sid, tables, j)
  {
    var next := tables + [t];
    forall j
      ensures LastPmt(sid, next, j) <==> if IsPmtOf(sid, t) then j == |tables| else LastPmt(sid, tables, j)
    {
      if LastPmt(sid, next, j) && j < |tables| {
        assert !IsPmtOf(sid, next[|tables|]);
        forall i | j < i < |tables|
          ensures !IsPmtOf(sid, tables[i])
        {
          assert next[i] == tables[i];
        }
      }
    }
  }
}
