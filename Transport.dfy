/** The message-passing runtime the library calls into, as an oracle. Each
    operation returns an arbitrary answer (success or failure, a completion
    record, a done flag, a rank) and appends the call, with its arguments and its
    answer, to a log. Delivery, ordering and tag matching are the runtime's
    business and are not modelled. */
module Transport {

  import opened TypeTraits

  /** A communicator handle (`MPI_Comm`). */
  type CommHandle = int

  /** A pending-operation handle (`MPI_Request`). */
  type RequestHandle = int

  /** The completion record of a receive (`MPI_Status`): source rank, tag and error. */
  datatype Completion = Completion(source: int, tag: int, error: int)

  /** One call into the runtime, with its arguments and what it answered. */
  datatype Call =
    | QueryInitialized(flag: bool)
    | QuerySize(comm: CommHandle, size: int)
    | QueryRank(comm: CommHandle, rank: int)
    | SendCall(addr: Addr, count: int, kind: WireKind, dest: int, tag: int, comm: CommHandle,
               ok: bool)
    | RecvCall(addr: Addr, count: int, kind: WireKind, source: int, tag: int, comm: CommHandle,
               ok: bool, record: Completion)
    | PostRecvCall(addr: Addr, count: int, kind: WireKind, source: int, tag: int, comm: CommHandle,
                   ok: bool, handle: RequestHandle)
    | TestCall(handle: RequestHandle, flag: bool, record: Completion)
    | WaitCall(handle: RequestHandle, record: Completion)

  /** The last call of a non-empty log. */
  ghost function Last(log: seq<Call>): (c: Call)
    requires |log| > 0
  {
    log[|log| - 1]
  }

  class Runtime {
    /** Whether `MPI_Init` has been called. */
    var initialized: bool
    /** Every call made so far, oldest first. */
    var log: seq<Call>

    constructor (initialized: bool)
      ensures this.initialized == initialized && log == []
    {
      this.initialized := initialized;
      log := [];
    }

    /** `MPI_Initialized`. */
    method Initialized() returns (flag: bool)
      modifies this`log
      ensures flag == initialized
      ensures log == old(log) + [QueryInitialized(flag)]
    {
      flag := initialized;
      log := log + [QueryInitialized(flag)];
    }

    /** `MPI_Comm_size`. */
    method CommSize(comm: CommHandle) returns (size: int)
      modifies this`log
      ensures log == old(log) + [QuerySize(comm, size)]
    {
      size :| true;
      log := log + [QuerySize(comm, size)];
    }

    /** `MPI_Comm_rank`. */
    method CommRank(comm: CommHandle) returns (rank: int)
      modifies this`log
      ensures log == old(log) + [QueryRank(comm, rank)]
    {
      rank :| true;
      log := log + [QueryRank(comm, rank)];
    }

    /** `MPI_Send`: `ok` is whether it returned `MPI_SUCCESS`. */
    method Send(addr: Addr, count: int, kind: WireKind, dest: int, tag: int, comm: CommHandle)
        returns (ok: bool)
      modifies this`log
      ensures log == old(log) + [SendCall(addr, count, kind, dest, tag, comm, ok)]
    {
      ok :| true;
      log := log + [SendCall(addr, count, kind, dest, tag, comm, ok)];
    }

    /** `MPI_Recv`. */
    method Recv(addr: Addr, count: int, kind: WireKind, source: int, tag: int, comm: CommHandle)
        returns (ok: bool, record: Completion)
      modifies this`log
      ensures log == old(log) + [RecvCall(addr, count, kind, source, tag, comm, ok, record)]
    {
      ok :| true;
      record :| true;
      log := log + [RecvCall(addr, count, kind, source, tag, comm, ok, record)];
    }

    /** `MPI_Irecv`. */
    method PostRecv(addr: Addr, count: int, kind: WireKind, source: int, tag: int, comm: CommHandle)
        returns (ok: bool, handle: RequestHandle)
      modifies this`log
      ensures log == old(log) + [PostRecvCall(addr, count, kind, source, tag, comm, ok, handle)]
    {
      ok :| true;
      handle :| true;
      log := log + [PostRecvCall(addr, count, kind, source, tag, comm, ok, handle)];
    }

    /** `MPI_Test`: one non-blocking poll. */
    method Test(handle: RequestHandle) returns (flag: bool, record: Completion)
      modifies this`log
      ensures log == old(log) + [TestCall(handle, flag, record)]
    {
      flag :| true;
      record :| true;
      log := log + [TestCall(handle, flag, record)];
    }

    /** `MPI_Wait`: blocks until the operation completes. */
    method Wait(handle: RequestHandle) returns (record: Completion)
      modifies this`log
      ensures log == old(log) + [WaitCall(handle, record)]
    {
      record :| true;
      log := log + [WaitCall(handle, record)];
    }
  }
}
