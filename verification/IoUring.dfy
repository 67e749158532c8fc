/** The io_uring server of the system library, as far as the drivers rely on it. */
module IoUring {
  import opened Base

  /** The server side of an io_uring: a queue of requests and a log of completions. */
  class IoUringServer {
    var sq: seq<Sqe>
    var cq: seq<Cqe>

    method NextRequest() returns (r: Option<Sqe>)
      modifies this
      ensures cq == old(cq)
      ensures old(sq) == [] ==> r == None && sq == []
      ensures old(sq) != [] ==> r == Some(old(sq)[0]) && sq == old(sq)[1..]
    {
      if |sq| == 0 {
        return None;
      }
      r := Some(sq[0]);
      sq := sq[1..];
    }

    method Complete(ud: u64, res: int)
      modifies this
      ensures sq == old(sq) && cq == old(cq) + [Cqe(ud, res)]
    {
      cq := cq + [Cqe(ud, res)];
    }
  }
}
