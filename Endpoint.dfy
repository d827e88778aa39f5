/** `endpoint`: a peer rank on a communicator. Its fields are fixed at
    construction, so it is a value; moving it copies both fields. */
module Endpoint {

  import opened Transport
  import Comm

  datatype Endpoint = Endpoint(peer: int, comm: CommHandle)
  {
    /** `rank()`: the rank the endpoint was made for. */
    function Rank(): (r: int)
    {
      peer
    }
  }

  /** `comm::operator()(r)`: the endpoint for rank `r` on this communicator. The
      communicator's cached rank and size play no part. */
  function At(c: Comm.Comm, r: int): (ep: Endpoint)
  {
    Endpoint(r, c.handle)
  }
}
