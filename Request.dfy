/** `request<T>`: the future of a posted receive. It is PENDING until a wait or a
    successful poll, then DONE for good; a status is held exactly when it is DONE. */
module Request {

  import opened Wrappers
  import opened TypeTraits
  import opened Transport
  import opened Message
  import opened Status

  /** The failure of `getStatus()` on a pending request (the source throws a bare
      string literal, "not done"). */
  datatype RequestError = NotDone

  class Request {
    const comm: CommHandle
    const req: RequestHandle
    /** The posted message, owned by the request. */
    const msg: Message
    var status: Option<Status>
    var done: bool

    ghost predicate Valid()
      reads this
    {
      msg.Valid() && TypeDefined(msg.ty, msg.data) && (status.Some? <==> done)
    }

    /** The status materialised from completion record `record`. */
    ghost function StatusOf(record: Completion): (st: Status)
      requires msg.Valid() && TypeDefined(msg.ty, msg.data)
    {
      Status(comm, record, GetType(msg.ty, msg.data))
    }

    /** A new request owns a message moved from `m`; it is pending, with no status. */
    constructor (comm: CommHandle, req: RequestHandle, m: Message)
      requires m.Valid() && TypeDefined(m.ty, m.data)
      ensures Valid()
      ensures this.comm == comm && this.req == req
      ensures fresh(msg) && msg.ty == m.ty && msg.data == m.data && msg.tag == m.tag
      ensures !done && status == None
    {
      this.comm := comm;
      this.req := req;
      msg := new Message.Move(m);
      status := None;
      done := false;
    }

    /** The move constructor: handle, message, status and flag carry over unchanged. */
    constructor Move(other: Request)
      requires other.Valid()
      ensures Valid()
      ensures comm == other.comm && req == other.req
      ensures fresh(msg) && msg.ty == other.msg.ty && msg.data == other.msg.data
      ensures msg.tag == other.msg.tag
      ensures status == other.status && done == other.done
    {
      comm := other.comm;
      req := other.req;
      msg := new Message.Move(other.msg);
      status := other.status;
      done := other.done;
    }

    /** What `isDone()` leaves behind, `before` being the runtime's log on entry:
        a done request stays as it was and the runtime is not polled; a pending one
        is polled exactly once, becomes done exactly when the poll says so, and then
        holds the status built from the poll's record. */
    twostate predicate Polled(rt: Runtime, before: seq<Call>)
      reads this, rt
      requires Valid()
    {
      && (old(done) ==> done && status == old(status) && rt.log == before)
      && (!old(done) ==>
            && |rt.log| == |before| + 1
            && rt.log[..|before|] == before
            && Last(rt.log).TestCall?
            && Last(rt.log).handle == req
            && Last(rt.log).flag == done
            && status == (if done then Some(StatusOf(Last(rt.log).record)) else None))
    }

    /** `get()`: waits for completion unless already done, then gives the bound value. */
    method Get(rt: Runtime) returns (v: Value)
      requires Valid()
      modifies this`status, this`done, rt`log
      ensures Valid() && done
      ensures v == msg.Get()
      ensures old(done) ==> status == old(status) && rt.log == old(rt.log)
      ensures !old(done) ==>
                && status.Some?
                && status.value == StatusOf(status.value.record)
                && rt.log == old(rt.log) + [WaitCall(req, status.value.record)]
    ensures !old(done) ==>
                && status.value.Source().Rank() == Last(rt.log).record.source
                && status.value.Source().comm == comm
                && status.value.Tag() == Last(rt.log).record.tag
                && status.value.Error() == Last(rt.log).record.error
    {
      if !done {
        var record := rt.Wait(req);
        done := true;
        var kind := msg.Type();
        status := Some(Status(comm, record, kind));
      }
      v := msg.Get();
    }

    /** `isDone()`: polls the runtime at most once, and never after completion. */
    method IsDone(rt: Runtime) returns (b: bool)
      requires Valid()
      modifies this`status, this`done, rt`log
      ensures Valid() && b == done
      ensures Polled(rt, old(rt.log))
    {
      if !done {
        var flag, record := rt.Test(req);
        done := flag;
        if done {
          var kind := msg.Type();
          status := Some(Status(comm, record, kind));
        }
      }
      b := done;
    }

    /** `getStatus()`: the held status once `isDone()` reports completion, NotDone otherwise. */
    method GetStatus(rt: Runtime) returns (r: Result<Status, RequestError>)
      requires Valid()
      modifies this`status, this`done, rt`log
      ensures Valid() && Polled(rt, old(rt.log))
      ensures r.Ok? <==> done
      ensures r.Ok? ==> status == Some(r.value)
      ensures r.Err? ==> r.error == NotDone
      ensures r.Ok? && !old(done) ==>
                && r.value.Source().Rank() == Last(rt.log).record.source
                && r.value.Tag() == Last(rt.log).record.tag
                && r.value.Error() == Last(rt.log).record.error
    {
      var d := IsDone(rt);
      if d {
        r := Ok(status.value);
      } else {
        r := Err(NotDone);
      }
    }
  }

  /** `get()` twice: the same value both times and at most one wait in all. */
  method GetTwice(r: Request, rt: Runtime) returns (v1: Value, v2: Value)
    requires r.Valid()
    modifies r, rt`log
    ensures r.Valid() && r.done
    ensures v1 == v2 == r.msg.data
    ensures old(r.done) ==> rt.log == old(rt.log)
    ensures !old(r.done) ==> rt.log == old(rt.log) + [WaitCall(r.req, r.status.value.record)]
  {
    v1 := r.Get(rt);
    ghost var afterFirst := rt.log;
    v2 := r.Get(rt);
    assert rt.log == afterFirst;
  }

  /** `isDone()` once it has said true: true again, with no further poll. */
  method IsDoneAfterDone(r: Request, rt: Runtime) returns (b: bool)
    requires r.Valid() && r.done
    modifies r, rt`log
    ensures b && r.Valid()
    ensures rt.log == old(rt.log) && r.status == old(r.status)
  {
    b := r.IsDone(rt);
  }
}
