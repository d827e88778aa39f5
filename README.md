# mpp: a verified model of the typed message layer over MPI

mpp is a C++ header library that sends and receives native values, `std::vector`s,
`std::array`s and `std::list`s over MPI without hand-written counts or datatypes. This
project models its core in Dafny:

- **TypeTraits** — `mpi_type_traits<T>`. It maps a value of static type T to a wire
  descriptor: an element count, a wire type and a base address. The primitive table
  covers 18 scalar types. There are traits for `const T`, `vector`, `array` and `list`.
  For a list, the wire type is a composite with one block per node, which the source
  fills in with a loop (`BuildListLayout`). The static type is a `Ty`, the run-time
  value a `Value` whose objects carry abstract addresses.
- **Transport** — the MPI runtime as an oracle. Every call returns an arbitrary answer
  and is appended to a log. The log is how contracts say what was handed to MPI, how
  often it was polled or waited on, and which answers were kept.
- **Message** — `msg_impl<T>`: a constant binding and a tag that can be set in place.
- **Comm** — `comm`: the lazily initialised communicator that caches rank and size.
- **Endpoint**, **Status** — a peer rank on a communicator, and the completion status
  of a receive.
- **Request** — `request<T>`: the future of an asynchronous receive. It moves from
  PENDING to DONE once, and it holds a status exactly when DONE.
- **EndpointOps** — blocking send, blocking receive and posting an asynchronous receive,
  for messages and for raw values, with the `comm_error` path.

`include/mpp.h` repeats the code of `include/detail/` in one header. The logic is modelled
once. The rows below cite whichever copy the member is closest to. The two copies differ in
behaviour only in that `mpp.h` holds the `MPI_Status` by value, has no named `send`, and its
`comm::operator()` is not `const`. They also differ in how copying is forbidden: `mpp.h`
declares the copy constructors private (include/mpp.h:91-92, 180-181), and `detail/` marks
them `= delete` (include/detail/message.h:70-71, include/detail/endpoint.h:41-42).

Three facts about the code shape the model:
- `comm_error` carries only the world rank and the peer rank, formatted into its message
  (include/detail/endpoint.h:122-126). It holds no diagnostic from the transport.
- A raw value that is sent is bound by `const` reference and not copied: `send(raw)` wraps
  it in a `msg_impl<const T>` (include/detail/endpoint.h:62-65), which keeps a reference to
  it (include/detail/message.h:41, 73).
- The composite datatype of a list is committed and never freed
  (include/detail/type_traits.h:186-190).

## Model

| member | source | states |
|---|---|---|
| TypeTraits.PrimitiveType | include/detail/type_traits.h:60-79 | each of the 18 listed scalar types maps to its own fixed MPI type; `ScalarOf` reads the table back, so the map is one-to-one |
| TypeTraits.PrimitiveTypesDistinct | include/detail/type_traits.h:54-79 | two different scalar types never share a wire type |
| TypeTraits.ScalarDescriptor | include/detail/type_traits.h:43-47 | a scalar is always describable, with count 1, its own address as base, and the table's type |
| TypeTraits.VectorDescriptor | include/detail/type_traits.h:114-122 | a vector's count is its length and its type is the element type's; its address is that of the front element and exists exactly when the vector is non-empty |
| TypeTraits.ArrayDescriptor | include/detail/type_traits.h:132-140 | an `array<T,N>` has count N and the element type's type; its address is the front element's and needs N > 0 |
| TypeTraits.ConstDescriptor | include/detail/type_traits.h:91-101 | `const T` is describable exactly when T is, with the same count, address and wire type (the corrected type rule, see Findings) |
| TypeTraits.DefaultType | include/detail/type_traits.h:116-118 | the type of a default-constructed T, used by the vector, array and const traits, is always a predefined type; for a list it is undefined |
| TypeTraits.ListDescriptor | include/detail/type_traits.h:149-195 | a list has count 1 and a composite with exactly `l.size()` blocks; block 0 has offset 0; block i has node i's address minus the front node's, and node i's own count and type, in iteration order; the address is the front payload's |
| TypeTraits.BuildListLayout | include/detail/type_traits.h:156-184 | on a non-empty list the fill loop produces three arrays of `l.size()` entries: entry i is node i's offset from the front node, its count and its type; no write leaves the arrays |
| TypeTraits.ComputeType | include/detail/type_traits.h:151-191 | computing the type (running the loop and `MPI_Type_create_struct` for a list) yields exactly the specified wire type |
| TypeTraits.CreateStruct | include/detail/type_traits.h:187 | the composite built from the three arrays has one block per entry, block i made of entry i of each array |
| TypeTraits.LayoutLength | include/detail/type_traits.h:156-158 | the layout has as many blocks as the list has nodes |
| TypeTraits.LayoutAt | include/detail/type_traits.h:173-182 | block i describes node i, with offset relative to the base |
| TypeTraits.ListTypeIsComposite | include/detail/type_traits.h:116-118 | only a list, possibly const, is described by a composite; every other type gets a predefined type |
| TypeTraits.ConstListTypeAsWrittenUndefined | include/detail/type_traits.h:95-97 | as written, the type of a `const list` is undefined for every list, also a non-empty one whose corrected type is defined |
| TypeTraits.ConstTypeAsWrittenAgrees | include/detail/type_traits.h:95-97 | for every type that is not a list, the const rule as written and the corrected one give the same wire type |
| TypeTraits.AddrIsFirstLeaf | include/detail/type_traits.h:120-122 | whenever an address is defined, it is the address of the value's first scalar in iteration order |
| TypeTraits.DescriptorCoversScalars | include/detail/type_traits.h:114-190 | for a scalar, a vector or array of scalars, or a list of such, count times the width of the wire type equals the number of scalars the value holds |
| TypeTraits.LayoutCoversScalars | include/detail/type_traits.h:173-184 | counted, the blocks of a list layout describe as many scalars as its nodes hold: the sum of each block's count times its type's width is the number of the nodes' scalars (a statement about counts, not positions) |
| TypeTraits.ScalarsLeaves | include/detail/type_traits.h:114 | a container of scalars holds one scalar per element |
| TypeTraits.ScalarLeaves | include/detail/type_traits.h:45-47 | a scalar, possibly const, is its own single scalar and gets a predefined type |
| Transport.Runtime.Send | include/detail/endpoint.h:114-118 | the oracle for `MPI_Send`: logs the call with its arguments and its success flag |
| Transport.Runtime.Recv | include/detail/endpoint.h:162-168 | the oracle for `MPI_Recv`: logs the call with its arguments, its success flag and the completion record it filled in |
| Transport.Runtime.PostRecv | include/detail/endpoint.h:133-135 | the oracle for `MPI_Irecv`: logs the call with its arguments, its success flag and the request handle it returned |
| Transport.Runtime.Initialized | include/detail/comm.h:51 | the oracle for `MPI_Initialized`: answers whether the runtime is initialised and logs the query |
| Transport.Runtime.CommSize | include/detail/comm.h:56 | the oracle for `MPI_Comm_size`: an arbitrary size, logged with the communicator asked |
| Transport.Runtime.CommRank | include/detail/comm.h:57 | the oracle for `MPI_Comm_rank`: an arbitrary rank, logged with the communicator asked |
| Transport.Runtime.Wait | include/detail/request.h:60 | the oracle for `MPI_Wait`: logs the wait and the completion record it returned |
| Transport.Runtime.Test | include/detail/request.h:75 | the oracle for `MPI_Test`: logs the poll, its done flag and its record |
| Message.Message.constructor | include/detail/message.h:41 | a message binds the given value and stores the tag, 0 by default |
| Message.Msg | include/detail/message.h:79 | `msg(raw, tag)` builds the same message as the constructor |
| Message.Message.Move | include/detail/message.h:44-46 | a moved message keeps the binding and the tag |
| Message.Message.Type | include/detail/message.h:59-61 | `type()` is the traits' wire type of the bound value (corrected const rule for lists, see Findings); `size()` and `addr()` likewise delegate to the traits |
| Message.Message.Get | include/detail/message.h:52 | `get()` is the bound value; a transparent accessor, whose property `Request.Request.Get` states: a request's `get()` returns the value its message binds |
| Message.Message.Tag | include/detail/message.h:64 | the const `tag()` is the stored tag; a transparent accessor, whose property `Message.Message.SetTag` and `Message.Message.constructor` state |
| Message.Message.SetTag | include/detail/message.h:64-65 | setting the tag changes the tag and nothing else; the binding is constant |
| Message.TypeTwice | include/detail/message.h:54-61 | two `type()` calls on one message give the same layout, and a composite exactly for a list |
| Comm.Comm.constructor | include/detail/comm.h:39-43 | a new communicator is uninitialised with size and rank -1 |
| Comm.Comm.CheckInit | include/detail/comm.h:46-58 | needs the runtime initialised when first called (the source's assert); on an initialised comm nothing changes and the runtime is not asked; otherwise it asks the runtime once for each of its three queries and caches size and rank |
| Comm.Comm.Rank | include/detail/comm.h:64-67 | runs `check_init`, then returns the cached rank |
| Comm.Comm.Size | include/detail/comm.h:74-77 | runs `check_init`, then returns the cached size |
| Comm.Comm.CachedRank | include/detail/comm.h:69-72 | the const `rank()` needs an initialised comm (the source's assert) and, as a transparent reading function, returns the cached rank without changing anything |
| Comm.Comm.CachedSize | include/detail/comm.h:79-82 | the const `size()` needs an initialised comm (the source's assert) and, as a transparent reading function, returns the cached size without changing anything |
| Comm.CheckInitTwice | include/mpp.h:124-136 | `check_init` is idempotent: a second call asks nothing and keeps what the first cached |
| Endpoint.At | include/detail/comm.h:96-98 | `comm(r)` is an endpoint for rank r on the comm's handle; a transparent helper, whose property `EndpointOps.SendTo` states: a send to `comm(r)` goes to rank r on that handle |
| Endpoint.Endpoint.Rank | include/detail/endpoint.h:101 | `rank()` is the rank the endpoint was made for; a transparent accessor, whose property `EndpointOps.SendTo` and `EndpointOps.Send` state: a send to the endpoint names that rank as destination |
| Status.Status.Source | include/mpp.h:273-275 | `source()` is the endpoint of the record's source on the status's comm; a transparent accessor, whose property `EndpointOps.ReceiveFrom` and `EndpointOps.Receive` state against the logged receive |
| Status.Status.Tag | include/mpp.h:283-285 | `tag()` is the record's tag; a transparent accessor, whose property `EndpointOps.ReceiveFrom`, `Request.Request.Get` and `Request.Request.GetStatus` state against the logged record |
| Status.Status.Error | include/mpp.h:287-289 | `error()` is the record's error field; a transparent accessor, whose property `EndpointOps.ReceiveFrom`, `Request.Request.Get` and `Request.Request.GetStatus` state against the logged record |
| Request.Request.constructor | include/detail/request.h:44-45 | a new request owns a message moved from the posted one; it is not done and has no status |
| Request.Request.Move | include/detail/request.h:47-52 | a moved request keeps handle, message, status and done flag |
| Request.Request.Get | include/detail/request.h:56-65 | on a pending request: one wait, then done, then a status built from the wait's record and the message's type, whose `source()`, `tag()` and `error()` are the wait's; on a done request: no wait and no change; either way it returns the bound value |
| Request.Request.IsDone | include/detail/request.h:72-81 | done: true with no poll; pending: exactly one poll, done iff the poll says so, and a status from the poll's record iff done; done is never reset and a status is held iff done |
| Request.Request.GetStatus | include/detail/request.h:67-70 | polls as `isDone()` does, then returns the held status if done and NotDone otherwise; a status obtained by this poll reports the poll's source, tag and error (same code at include/mpp.h:353-356) |
| Request.GetTwice | include/mpp.h:342-351 | `get()` twice returns the same value and waits at most once in all |
| Request.IsDoneAfterDone | include/mpp.h:358-367 | once done, `isDone()` stays true without polling again |
| EndpointOps.Send | include/detail/endpoint.h:112-127 | hands MPI the message's address, count and type, the endpoint's rank and the message's tag; on success it returns the endpoint itself and touches nothing else; on failure a `comm_error` with the world rank and the peer rank |
| EndpointOps.SendRaw | include/detail/endpoint.h:62-65 | a raw value is sent as a `const T` message with tag 0: the traits of T, tag 0 (corrected const rule for lists, see Findings); on success the log gains only that call and the world is unchanged; on failure the world has run `check_init` and the `comm_error` names its rank and the peer's |
| EndpointOps.Failure | include/detail/endpoint.h:122-126 | the error carries `comm::world.rank()`, after its `check_init`, and the peer rank |
| EndpointOps.Receive | include/detail/endpoint.h:159-176 | hands MPI the descriptor, the rank and the tag; on success the status keeps the comm, the completion record and the very wire type the receive was given, so its `source()`, `tag()` and `error()` are the record's; on failure a `comm_error` |
| EndpointOps.ReceiveRaw | include/detail/endpoint.h:153-156 | a raw receive wraps the value as a mutable message with tag 0, logging the value's descriptor and tag 0; on success the status reports the record's source, tag and error; on success the log gains only that call and the world is unchanged; on failure the world has run `check_init` and the `comm_error` names its rank and the peer's |
| EndpointOps.ReceiveAsync | include/detail/endpoint.h:130-144 | posts the receive; on failure a `comm_error`; otherwise a fresh, pending request with no status, owning a message moved from the posted one and the runtime's handle |
| EndpointOps.ReceiveAsyncRaw | include/detail/endpoint.h:95-98 | an asynchronous raw receive wraps the value as a mutable message with tag 0, logging the value's descriptor and tag 0; on success a fresh pending request with no status, the runtime's handle and the endpoint's comm; on success the log gains only that call and the world is unchanged; on failure the world has run `check_init` and the `comm_error` names its rank and the peer's |
| EndpointOps.SendChain | include/mpp.h:193-208 | `ep << a << b`: whenever the first send succeeds, a second send is made to the same rank with b's tag, whether or not it then succeeds; when both succeed the result is the endpoint; a failed first send raises `comm_error` and no further send is logged after it |
| EndpointOps.SendTo | include/detail/comm.h:96-98 | `comm::world(r) << raw`: the endpoint `comm(r)` makes the send go to rank r on the world's handle, with tag 0 and the value's descriptor (corrected const rule for lists, see Findings); the result is that endpoint on success and a `comm_error` for rank r on failure; on success the log gains only that call and the world is unchanged; on failure the world has run `check_init` and the `comm_error` names its rank and the peer's |
| EndpointOps.ReceiveFrom | include/mpp.h:273-289 | `comm::world(r) >> raw`, then the status accessors: the receive asks for rank r with tag 0; `source()` is the endpoint of the record's source on the world's handle, `tag()` and `error()` are the record's tag and error (`count()` is left out); on success the log gains only that call and the world is unchanged; on failure the world has run `check_init` and the `comm_error` names its rank and the peer's |
| EndpointOps.ReplyToSender | include/mpp.h:273-275 | whenever the receive succeeds, the reply to `status.source()` is sent to the rank the completion record names, on the same comm, whether or not the reply then succeeds |

## Left out

- The MPI primitives are an oracle that only logs each call. Delivery, ordering and tag matching are the runtime's, and so are the buffer contents a receive writes. A `Value` holds addresses, not payloads, so "the value received equals the value sent" is not stated.
- `status::count()` (include/mpp.h:277-281) is only a call to `MPI_Get_count`.
- `request::cancel()` (include/detail/request.h:54) is declared but never defined.
- The text of `comm_error` messages is `ostringstream` formatting. The error is the pair of ranks.
- `getStatus()` throws the bare string "not done". The model returns the structured error `NotDone`.
- References and lifetimes are not modelled. `msg_impl` holds a `T&`, and `endpoint` and `status` hold a `const MPI_Comm&`. The model copies values and handles, and a moved message is a fresh object with the same binding.
- `comm::world`, `init`, `finalize` and `any` (include/mpp.h:166, 370-373) are not modelled as globals. The world communicator is passed explicitly. The wildcard source is just an integer rank, because its value is up to the MPI implementation.
- Datatype handles are not modelled as handles. A composite is its layout, so the fresh handle that each list `type()` call builds and commits, and then leaks, has no identity in the model. Its absence of release is not modelled either.
- `static_cast<int>` of counts and `int` truncation are not modelled. Counts are unbounded.
- The source's `int done`, written by `MPI_Test`, is a `bool`.
- Compile-time aspects of the templates are not modelled: overload resolution, const-correctness of `get_type(T&&)` on a `const T&` node, and deleted copy constructors. As shown, the headers do not compile for every type the model covers:
  - The `std::array` and `std::list` traits (include/detail/type_traits.h:130-141, 147-195) define no `element_addr_type`. Both `mpi_type_traits<const T>` (include/detail/type_traits.h:89) and `msg_impl::addr()` (include/detail/message.h:48) need it, so a message over an array or a list is ill-formed once it is instantiated.
  - The array and list `get_addr` (include/detail/type_traits.h:139, 194) pass a `const T&` element to the element trait's `get_addr(T&)`.
  The model gives these traits the meaning their text computes once those two gaps are closed: a typedef `const T*`, and a `get_addr` taking `const T&`.
- `include/detail/status.h` and `include/detail/decls.h` are not part of this model. `status` follows `include/mpp.h`.
- test/simple_sendrecv.cc needs a live MPI runtime and converts floating point values.
- The `send(const msg_impl<M>&)` and `operator<<(const msg_impl<M>&)` overloads (include/detail/endpoint.h:57-60, 72-75; include/mpp.h:210-213) are not modelled. Their bodies call `send(std::move(m))`, whose argument is a `const msg_impl<M>&&`. The `msg_impl<M>&&` overload cannot bind that argument. Of the remaining templates, overload ordering picks the `const msg_impl<M>&` overload again. So `ep << m` with a named message recurses without end: by reading, not executed. An rvalue message, such as `ep << msg(x, 11)`, takes the `&&` overload, which `Send` models.
- LayoutCoversScalars: states counts only, not positions. For a list of vectors the source does not place block i on node i's elements. It takes each offset from the vector object's address (include/detail/type_traits.h:165, 178). It takes the base address, however, from the front vector's first element (include/detail/type_traits.h:193-194, 120-122). The model keeps the source's offsets and base.
- DescriptorCoversScalars: stated only for scalars, vectors and arrays of scalars, and lists of such types. For nested contiguous containers the source uses the innermost element type with the outer count, so the descriptor does not cover those values. The model keeps the source's rule.

## Findings

| source | as written | input that shows it | evidently intended | confidence | as-written member | corrected member |
|---|---|---|---|---|---|---|
| include/detail/type_traits.h:95-97 | the `const T` trait computes the wire type as `mpi_type_traits<T>::get_type(T())`, from a default-constructed T, ignoring the value | sending a raw list, `comm::world(1) << l` with `l = {1,2,3,4,5}` (include/detail/endpoint.h:77-80 wraps it as `msg_impl<const std::list<int>>`). As shown, this does not compile, because the list trait lacks `element_addr_type` (see the compile-time line under Left out). Once that gap is closed, the text computes the layout of an empty list: it reads `front()` of the empty list and writes past the end of zero-length vectors | the wire type of the value itself, `mpi_type_traits<T>::get_type(elem)`, which for a list is the layout of its nodes | not executed; high | TypeTraits.ConstListTypeAsWrittenUndefined | TypeTraits.ConstDescriptor |
