/** Values the daemons exchange over their control sockets (control/messages.rs). */
module Messages {
  /** A contiguous range of chunks. */
  datatype RequestedRange = RequestedRange(start: nat, count: nat)
  {
    /** One past the last chunk. */
    function End(): nat {
      start + count
    }

    predicate Contains(c: nat) {
      start <= c < End()
    }
  }

  function Sum(ranges: seq<RequestedRange>): nat {
    if ranges == [] then 0 else ranges[0].count + Sum(ranges[1..])
  }
}
