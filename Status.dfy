/** `status`: what a completed receive reports. It keeps the communicator, the
    completion record and the wire type the receive used. */
module Status {

  import opened TypeTraits
  import opened Transport
  import opened Endpoint

  datatype Status = Status(comm: CommHandle, record: Completion, kind: WireKind)
  {
    /** `source()`: an endpoint for the rank the message came from. */
    function Source(): (ep: Endpoint)
    {
      Endpoint(record.source, comm)
    }

    /** `tag()`: the record's tag. */
    function Tag(): (t: int)
    {
      record.tag
    }

    /** `error()`: the record's error code. */
    function Error(): (e: int)
    {
      record.error
    }
  }
}
