/** The two outgoing streams of a connection, to the client and to the backend. */
module Streams {
  import opened Wire

  /** An outgoing stream: what has been written to it, in order. */
  class StreamWriter {
    var written: seq<Bytes>

    constructor ()
      ensures written == []
    {
      written := [];
    }

    method Write(data: Bytes)
      modifies this
      ensures written == old(written) + [data]
    {
      written := written + [data];
    }
  }
}
