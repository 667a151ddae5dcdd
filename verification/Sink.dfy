/** What an engine sends downstream. */
module Sinks {
  /** How handling a packet ends: go on, stop feeding, or the process aborts on an assertion. */
  datatype Outcome = Continue | Finish | Abort

  /** Remembers everything it gets and what it answered; an accepting sink never refuses. */
  class Sink<T> {
    const accepting: bool
    var received: seq<T>
    var answers: seq<bool>

    constructor (accepting: bool)
      ensures this.accepting == accepting && received == [] && answers == []
    {
      this.accepting, received, answers := accepting, [], [];
    }

    method HandlePacket(item: T) returns (ok: bool)
      modifies this
      ensures received == old(received) + [item] && answers == old(answers) + [ok]
      ensures accepting ==> ok
    {
      received := received + [item];
      ok := *;
      ok := ok || accepting;
      answers := answers + [ok];
    }
  }
}
