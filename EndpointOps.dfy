/** The communication operations of `endpoint`: blocking send, blocking receive
    and posting an asynchronous receive, each for a message and for a raw value.
    Each hands the message's descriptor, the endpoint's rank and the message's
    tag to the runtime; a failure becomes a `CommError` naming the local rank
    (asked of the world communicator, as the source does) and the peer rank. */
module EndpointOps {

  import opened Wrappers
  import opened TypeTraits
  import opened Transport
  import opened Message
  import opened Comm
  import opened Endpoint
  import opened Status
  import opened Request

  /** `comm_error`: the local rank and the rank of the peer the operation was for. */
  datatype CommError = CommError(localRank: int, peerRank: int)

  /** The message's descriptor can be computed: the traits are defined on its binding. */
  predicate Sendable(m: Message)
  {
    m.Valid() && AddrDefined(m.ty, m.data) && TypeDefined(m.ty, m.data)
  }

  /** The error path shared by all three operations: ask the world communicator for
      the local rank (which runs `check_init`) and report it beside the peer's. */
  method Failure(ep: Endpoint, world: Comm, rt: Runtime) returns (err: CommError)
    requires world.initialized || rt.initialized
    modifies world`initialized, world`commSize, world`rank, rt`log
    ensures world.InitChecked(rt, old(rt.log))
    ensures err == CommError(world.rank, ep.Rank())
  {
    var local := world.Rank(rt);
    err := CommError(local, ep.Rank());
  }

  /** `send(msg)` (also `operator<<`). */
  method Send(ep: Endpoint, m: Message, world: Comm, rt: Runtime) returns (r: Result<Endpoint, CommError>)
    requires Sendable(m)
    requires world.initialized || rt.initialized
    modifies world`initialized, world`commSize, world`rank, rt`log
    ensures |rt.log| > |old(rt.log)|
    ensures rt.log[|old(rt.log)|]
            == SendCall(m.Addr(), m.Size(), GetType(m.ty, m.data), ep.Rank(), m.tag, ep.comm, r.Ok?)
    ensures r.Ok? ==> r.value == ep && rt.log == old(rt.log) + [rt.log[|old(rt.log)|]]
    ensures r.Ok? ==> unchanged(world)
    ensures r.Err? ==> world.InitChecked(rt, old(rt.log) + [rt.log[|old(rt.log)|]])
    ensures r.Err? ==> r.error == CommError(world.rank, ep.Rank())
  {
    var kind := m.Type();
    var ok := rt.Send(m.Addr(), m.Size(), kind, ep.Rank(), m.tag, ep.comm);
    if ok {
      return Ok(ep);
    }
    var err := Failure(ep, world, rt);
    r := Err(err);
  }

  /** `send(raw)` (also `operator<<(raw)`): the raw value wrapped as a message of
      type `const T` with tag 0. */
  method SendRaw(ep: Endpoint, ty: Ty, raw: Value, world: Comm, rt: Runtime)
      returns (r: Result<Endpoint, CommError>)
    requires Describable(ConstOf(ty), raw)
    requires world.initialized || rt.initialized
    modifies world`initialized, world`commSize, world`rank, rt`log
    ensures |rt.log| > |old(rt.log)|
    ensures rt.log[|old(rt.log)|]
            == SendCall(GetAddr(ty, raw), GetSize(ty, raw), GetType(ty, raw), ep.Rank(), 0, ep.comm, r.Ok?)
    ensures r.Ok? ==> r.value == ep && rt.log == old(rt.log) + [rt.log[|old(rt.log)|]]
    ensures r.Ok? ==> unchanged(world)
    ensures r.Err? ==> world.InitChecked(rt, old(rt.log) + [rt.log[|old(rt.log)|]])
    ensures r.Err? ==> r.error == CommError(world.rank, ep.Rank())
  {
    var m := new Message(ConstOf(ty), raw);
    r := Send(ep, m, world, rt);
  }

  /** `operator>>(msg)`: a blocking receive. The status keeps the communicator, the
      completion record and the very wire type the receive was given. */
  method Receive(ep: Endpoint, m: Message, world: Comm, rt: Runtime) returns (r: Result<Status, CommError>)
    requires Sendable(m)
    requires world.initialized || rt.initialized
    modifies world`initialized, world`commSize, world`rank, rt`log
    ensures |rt.log| > |old(rt.log)|
    ensures var call := rt.log[|old(rt.log)|];
            && call.RecvCall?
            && call == RecvCall(m.Addr(), m.Size(), GetType(m.ty, m.data), ep.Rank(), m.tag, ep.comm,
                                r.Ok?, call.record)
            && (r.Ok? ==> r.value == Status(ep.comm, call.record, call.kind))
            && (r.Ok? ==> && r.value.Source() == Endpoint(call.record.source, ep.comm)
                          && r.value.Tag() == call.record.tag
                          && r.value.Error() == call.record.error)
    ensures r.Ok? ==> rt.log == old(rt.log) + [rt.log[|old(rt.log)|]] && unchanged(world)
    ensures r.Err? ==> world.InitChecked(rt, old(rt.log) + [rt.log[|old(rt.log)|]])
    ensures r.Err? ==> r.error == CommError(world.rank, ep.Rank())
  {
    var kind := m.Type();
    var ok, record := rt.Recv(m.Addr(), m.Size(), kind, ep.Rank(), m.tag, ep.comm);
    if ok {
      return Ok(Status(ep.comm, record, kind));
    }
    var err := Failure(ep, world, rt);
    r := Err(err);
  }

  /** `operator>>(raw)`: the raw value wrapped as a mutable message with tag 0. */
  method ReceiveRaw(ep: Endpoint, ty: Ty, raw: Value, world: Comm, rt: Runtime)
      returns (r: Result<Status, CommError>)
    requires Describable(ty, raw)
    requires world.initialized || rt.initialized
    modifies world`initialized, world`commSize, world`rank, rt`log
    ensures |rt.log| > |old(rt.log)|
    ensures var call := rt.log[|old(rt.log)|];
            && call.RecvCall?
            && call == RecvCall(GetAddr(ty, raw), GetSize(ty, raw), GetType(ty, raw), ep.Rank(), 0,
                                ep.comm, r.Ok?, call.record)
            && (r.Ok? ==> r.value == Status(ep.comm, call.record, call.kind))
            && (r.Ok? ==> && r.value.Source() == Endpoint(call.record.source, ep.comm)
                          && r.value.Tag() == call.record.tag
                          && r.value.Error() == call.record.error)
    ensures r.Ok? ==> rt.log == old(rt.log) + [rt.log[|old(rt.log)|]] && unchanged(world)
    ensures r.Err? ==> world.InitChecked(rt, old(rt.log) + [rt.log[|old(rt.log)|]])
    ensures r.Err? ==> r.error == CommError(world.rank, ep.Rank())
  {
    var m := new Message(ty, raw);
    r := Receive(ep, m, world, rt);
  }

  /** `operator>(msg)`: posts the receive and, unless posting failed, returns a
      pending request that owns the moved message and the runtime's handle. */
  method ReceiveAsync(ep: Endpoint, m: Message, world: Comm, rt: Runtime)
      returns (r: Result<Request, CommError>)
    requires Sendable(m)
    requires world.initialized || rt.initialized
    modifies world`initialized, world`commSize, world`rank, rt`log
    ensures |rt.log| > |old(rt.log)|
    ensures var call := rt.log[|old(rt.log)|];
            && call.PostRecvCall?
            && call == PostRecvCall(m.Addr(), m.Size(), GetType(m.ty, m.data), ep.Rank(), m.tag, ep.comm,
                                    r.Ok?, call.handle)
            && (r.Ok? ==> r.value.req == call.handle)
    ensures r.Ok? ==> rt.log == old(rt.log) + [rt.log[|old(rt.log)|]] && unchanged(world)
    ensures r.Ok? ==> && fresh(r.value) && fresh(r.value.msg) && r.value.Valid()
                      && r.value.comm == ep.comm && !r.value.done && r.value.status == None
                      && r.value.msg.ty == m.ty && r.value.msg.data == m.data && r.value.msg.tag == m.tag
    ensures r.Err? ==> world.InitChecked(rt, old(rt.log) + [rt.log[|old(rt.log)|]])
    ensures r.Err? ==> r.error == CommError(world.rank, ep.Rank())
  {
    var kind := m.Type();
    var ok, handle := rt.PostRecv(m.Addr(), m.Size(), kind, ep.Rank(), m.tag, ep.comm);
    if !ok {
      var err := Failure(ep, world, rt);
      return Err(err);
    }
    var req := new Request(ep.comm, handle, m);
    r := Ok(req);
  }

  /** `operator>(raw)`: the raw value wrapped as a mutable message with tag 0. */
  method ReceiveAsyncRaw(ep: Endpoint, ty: Ty, raw: Value, world: Comm, rt: Runtime)
      returns (r: Result<Request, CommError>)
    requires Describable(ty, raw)
    requires world.initialized || rt.initialized
    modifies world`initialized, world`commSize, world`rank, rt`log
    ensures |rt.log| > |old(rt.log)|
    ensures var call := rt.log[|old(rt.log)|];
            && call.PostRecvCall?
            && call == PostRecvCall(GetAddr(ty, raw), GetSize(ty, raw), GetType(ty, raw), ep.Rank(), 0,
                                    ep.comm, r.Ok?, call.handle)
    ensures r.Ok? ==> && fresh(r.value) && fresh(r.value.msg) && r.value.Valid()
                      && !r.value.done && r.value.status == None
                      && r.value.req == rt.log[|old(rt.log)|].handle && r.value.comm == ep.comm
                      && r.value.msg.ty == ty && r.value.msg.data == raw && r.value.msg.tag == 0
    ensures r.Ok? ==> rt.log == old(rt.log) + [rt.log[|old(rt.log)|]] && unchanged(world)
    ensures r.Err? ==> world.InitChecked(rt, old(rt.log) + [rt.log[|old(rt.log)|]])
    ensures r.Err? ==> r.error == CommError(world.rank, ep.Rank())
  {
    var m := new Message(ty, raw);
    r := ReceiveAsync(ep, m, world, rt);
  }

  /** `ep << a << b`: a successful send returns the endpoint, so the second send goes
      to the same peer; if the first fails the second is never made. */
  method SendChain(ep: Endpoint, a: Message, b: Message, world: Comm, rt: Runtime)
      returns (r: Result<Endpoint, CommError>)
    requires Sendable(a) && Sendable(b)
    requires world.initialized || rt.initialized
    modifies world`initialized, world`commSize, world`rank, rt`log
    ensures |rt.log| > |old(rt.log)| && rt.log[|old(rt.log)|].SendCall?
    ensures rt.log[|old(rt.log)|].dest == ep.Rank() && rt.log[|old(rt.log)|].tag == a.tag
    ensures r.Ok? ==> && r.value == ep && |rt.log| == |old(rt.log)| + 2
                      && rt.log[|old(rt.log)|].ok
                      && rt.log[|old(rt.log)| + 1].SendCall?
                      && rt.log[|old(rt.log)| + 1].dest == ep.Rank()
                      && rt.log[|old(rt.log)| + 1].tag == b.tag
                      && rt.log[|old(rt.log)| + 1].ok
    ensures !rt.log[|old(rt.log)|].ok ==> r.Err? && r.error == CommError(world.rank, ep.Rank())
    ensures rt.log[|old(rt.log)|].ok ==>
              && |rt.log| > |old(rt.log)| + 1
              && rt.log[|old(rt.log)| + 1].SendCall?
              && rt.log[|old(rt.log)| + 1].dest == ep.Rank()
              && rt.log[|old(rt.log)| + 1].tag == b.tag
    ensures !rt.log[|old(rt.log)|].ok ==> forall j :: |old(rt.log)| < j < |rt.log| ==> !rt.log[j].SendCall?
  {
    var first := Send(ep, a, world, rt);
    if first.Err? {
      return first;
    }
    r := Send(first.value, b, world, rt);
  }

  /** `comm::world(r) << raw`: the send goes to rank `r` on the world communicator,
      with tag 0 and the descriptor of the raw value. */
  method SendTo(world: Comm, r: int, ty: Ty, raw: Value, rt: Runtime)
      returns (res: Result<Endpoint, CommError>)
    requires Describable(ConstOf(ty), raw)
    requires world.initialized || rt.initialized
    modifies world`initialized, world`commSize, world`rank, rt`log
    ensures |rt.log| > |old(rt.log)|
    ensures var call := rt.log[|old(rt.log)|];
            && call.SendCall?
            && call.dest == r && call.comm == world.handle && call.tag == 0
            && call.addr == GetAddr(ty, raw) && call.count == GetSize(ty, raw)
            && call.kind == GetType(ty, raw)
            && (res.Ok? <==> call.ok)
    ensures res.Ok? ==> res.value.Rank() == r && res.value.comm == world.handle
    ensures res.Ok? ==> rt.log == old(rt.log) + [rt.log[|old(rt.log)|]] && unchanged(world)
    ensures res.Err? ==> world.InitChecked(rt, old(rt.log) + [rt.log[|old(rt.log)|]])
    ensures res.Err? ==> res.error == CommError(world.rank, r)
  {
    res := SendRaw(At(world, r), ty, raw, world, rt);
  }

  /** `auto s = comm::world(r) >> raw`, then `s.source()`, `s.tag()` and `s.error()`:
      the receive asks for rank `r` with tag 0 on the world communicator, and the
      status reports the source, tag and error of the record the runtime completed
      the receive with, which need not be the ones asked for. */
  method ReceiveFrom(world: Comm, r: int, ty: Ty, raw: Value, rt: Runtime)
      returns (res: Result<Status, CommError>)
    requires Describable(ty, raw)
    requires world.initialized || rt.initialized
    modifies world`initialized, world`commSize, world`rank, rt`log
    ensures |rt.log| > |old(rt.log)|
    ensures var call := rt.log[|old(rt.log)|];
            && call.RecvCall?
            && call.source == r && call.comm == world.handle && call.tag == 0
            && (res.Ok? <==> call.ok)
            && (res.Ok? ==> && res.value.Source().Rank() == call.record.source
                            && res.value.Source().comm == world.handle
                            && res.value.Tag() == call.record.tag
                            && res.value.Error() == call.record.error)
    ensures res.Ok? ==> rt.log == old(rt.log) + [rt.log[|old(rt.log)|]] && unchanged(world)
    ensures res.Err? ==> world.InitChecked(rt, old(rt.log) + [rt.log[|old(rt.log)|]])
    ensures res.Err? ==> res.error == CommError(world.rank, r)
  {
    res := ReceiveRaw(At(world, r), ty, raw, world, rt);
  }

  /** A wildcard-source receive followed by a reply to `status.source()`: the reply
      goes to the rank the completion record names, whatever rank was asked for. */
  method ReplyToSender(from: Endpoint, m: Message, reply: Message, world: Comm, rt: Runtime)
      returns (r: Result<Endpoint, CommError>)
    requires Sendable(m) && Sendable(reply)
    requires world.initialized || rt.initialized
    modifies world`initialized, world`commSize, world`rank, rt`log
    ensures |rt.log| > |old(rt.log)| && rt.log[|old(rt.log)|].RecvCall?
    ensures rt.log[|old(rt.log)|].ok ==>
              && |rt.log| > |old(rt.log)| + 1
              && rt.log[|old(rt.log)| + 1].SendCall?
              && rt.log[|old(rt.log)| + 1].dest == rt.log[|old(rt.log)|].record.source
              && rt.log[|old(rt.log)| + 1].comm == from.comm
    ensures r.Ok? ==> && |rt.log| == |old(rt.log)| + 2
                      && rt.log[|old(rt.log)| + 1].SendCall?
                      && rt.log[|old(rt.log)| + 1].dest == rt.log[|old(rt.log)|].record.source
                      && rt.log[|old(rt.log)| + 1].comm == from.comm
                      && r.value.Rank() == rt.log[|old(rt.log)|].record.source
  {
    var st := Receive(from, m, world, rt);
    if st.Err? {
      return Err(st.error);
    }
    r := Send(st.value.Source(), reply, world, rt);
  }
}
