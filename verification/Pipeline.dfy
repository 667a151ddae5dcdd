/**
 Engines behind the service filter: what it lets through is what they may assume of their input.
 */
module Pipeline {
  import opened Tables
  import ServiceFiltering
  import ProgramFiltering
  import Recording

  /** The PAT lists what some PAT packet up to number `i` did. */
  ghost predicate WasSent(received: seq<ServiceFiltering.Forwarded>, i: nat, pmts: map<int, Pid>) {
    exists j :: 0 <= j <= i && j < |received| && received[j] == ServiceFiltering.PatPacket(pmts)
  }

  /**
   Input `i` of an engine behind the filter is packet `i` that the filter has sent, and the tables that a
   demultiplexer completes with it: a PAT comes from PAT packets.
   */
  ghost predicate Carries(received: seq<ServiceFiltering.Forwarded>, inputs: seq<Input>, i: nat)
    requires i < |inputs| == |received|
  {
    && |inputs[i].packet.bytes| == PKT_SIZE
    && (match received[i]
        case Original(packet) => inputs[i].packet == packet
        case PatPacket(_) => inputs[i].packet.pid == PID_PAT)
    && forall t :: t in inputs[i].tables && t.Pat? && Acceptable(t) ==>
        received[i].PatPacket? && WasSent(received, i, t.pmts)
  }

  /**
   Everything that the program filter and the recorder require of PATs holds behind the service filter,
   whose output is harmless in every run.
   */
  lemma FilteredIsFed(sid: int, received: seq<ServiceFiltering.Forwarded>, inputs: seq<Input>, i: nat)
    requires |received| == |inputs| && i < |inputs|
    requires forall j :: 0 <= j < |received| ==> ServiceFiltering.Harmless(sid, received[j])
    requires Carries(received, inputs, i)
    ensures Recording.ValidInput(sid, inputs[i])
    ensures forall t :: t in inputs[i].tables ==> ProgramFiltering.PatFed(sid, inputs[i].packet, t)
  {
  }
}
