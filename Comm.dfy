/** `comm`: a communicator handle whose rank and size are fetched from the
    runtime on first use and cached from then on. The process-wide `comm::world`
    is an ordinary object here, passed to whoever needs it. */
module Comm {

  import opened Transport

  class Comm {
    const handle: CommHandle
    var initialized: bool
    var commSize: int
    var rank: int

    /** A new communicator knows neither its size nor the local rank. */
    constructor (h: CommHandle)
      ensures handle == h
      ensures !initialized && commSize == -1 && rank == -1
    {
      handle := h;
      initialized := false;
      commSize := -1;
      rank := -1;
    }

    /** What `check_init` leaves behind, `before` being the runtime's log on entry:
        the communicator is initialized; if it already was, nothing changed and the
        runtime was not asked; otherwise the runtime answered three queries and
        their answers are cached. */
    twostate predicate InitChecked(rt: Runtime, before: seq<Call>)
      reads this, rt
    {
      && initialized
      && (old(initialized) ==> commSize == old(commSize) && rank == old(rank) && rt.log == before)
      && (!old(initialized) ==>
            rt.log == before + [QueryInitialized(true), QuerySize(handle, commSize), QueryRank(handle, rank)])
    }

    /** `check_init`. The runtime must be initialized by the first call: the source
        asserts it. */
    method CheckInit(rt: Runtime)
      requires initialized || rt.initialized
      modifies this`initialized, this`commSize, this`rank, rt`log
      ensures InitChecked(rt, old(rt.log))
    {
      if initialized {
        return;
      }
      var flag := rt.Initialized();
      assert flag;
      initialized := true;
      commSize := rt.CommSize(handle);
      rank := rt.CommRank(handle);
    }

    /** The non-const `rank()`: `check_init`, then the cached rank. */
    method Rank(rt: Runtime) returns (r: int)
      requires initialized || rt.initialized
      modifies this`initialized, this`commSize, this`rank, rt`log
      ensures InitChecked(rt, old(rt.log))
      ensures r == rank
    {
      CheckInit(rt);
      r := rank;
    }

    /** The non-const `size()`: `check_init`, then the cached size. */
    method Size(rt: Runtime) returns (n: int)
      requires initialized || rt.initialized
      modifies this`initialized, this`commSize, this`rank, rt`log
      ensures InitChecked(rt, old(rt.log))
      ensures n == commSize
    {
      CheckInit(rt);
      n := commSize;
    }

    /** The const `rank()`: only on an initialized communicator. */
    function CachedRank(): (r: int)
      reads this
      requires initialized
    {
      rank
    }

    /** The const `size()`: only on an initialized communicator. */
    function CachedSize(): (n: int)
      reads this
      requires initialized
    {
      commSize
    }
  }

  /** Two calls of `check_init`: the runtime is asked at most once, and the second
      call sees, and keeps, what the first one cached. */
  method CheckInitTwice(c: Comm, rt: Runtime)
    requires c.initialized || rt.initialized
    modifies c, rt`log
    ensures c.initialized
    ensures old(c.initialized) ==> rt.log == old(rt.log)
    ensures !old(c.initialized) ==>
              rt.log == old(rt.log)
                        + [QueryInitialized(true), QuerySize(c.handle, c.commSize), QueryRank(c.handle, c.rank)]
    ensures old(c.initialized) ==> c.rank == old(c.rank) && c.commSize == old(c.commSize)
  {
    c.CheckInit(rt);
    ghost var cached := (c.rank, c.commSize, rt.log);
    c.CheckInit(rt);
    assert (c.rank, c.commSize, rt.log) == cached;
  }
}
