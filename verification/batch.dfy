/**
  The batch builders: each creates a zeroed context, stores the managed
  callback in it, fills the inputs the batch sends, and lists a fixed,
  ordered array of operations for the engine. What the engine does with the
  batch is not modelled here; `Prepared` is everything the shim hands to
  grpc_call_start_batch (or to grpc_server_request_call).
 */
module Batch {
  import opened Memory
  import opened Context

  datatype OpKind =
    | SendInitialMetadata
    | SendMessage
    | SendCloseFromClient
    | SendStatusFromServer
    | RecvInitialMetadata
    | RecvMessage
    | RecvStatusOnClient
    | RecvCloseOnServer

  /**
    The input an operation carries. Receiving operations carry none: their
    outputs point into the context, whose fields are not modelled as pointers.
   */
  datatype Payload =
    | NoPayload
    | InitialMetadata(count: nat)
    | Message(buffer: ByteBuffer)
    | Status(code: int, details: Option<CString>, trailingMetadataCount: nat)

  datatype Op = Op(kind: OpKind, payload: Payload)

  /** A batch of operations, or a request for the next incoming server call. */
  datatype Request = StartBatch(ops: seq<Op>) | RequestCall

  /** A context ready to be submitted with its request; `tag` is the context pointer. */
  datatype Prepared = Prepared(tag: Handle, ctx: BatchContext, request: Request, heap: Heap)

  function Kinds(ops: seq<Op>): (ks: seq<OpKind>)
    ensures |ks| == |ops|
    ensures forall i :: 0 <= i < |ops| ==> ks[i] == ops[i].kind
  {
    seq(|ops|, i requires 0 <= i < |ops| => ops[i].kind)
  }

  /** The position of an operation kind in the order every builder follows. */
  function Rank(k: OpKind): nat {
    match k
    case SendInitialMetadata => 0
    case SendMessage => 1
    case SendCloseFromClient => 2
    case SendStatusFromServer => 3
    case RecvInitialMetadata => 4
    case RecvMessage => 5
    case RecvStatusOnClient => 6
    case RecvCloseOnServer => 7
  }

  /** Operations in increasing rank: no kind twice, sending before receiving. */
  predicate StrictlyOrdered(ks: seq<OpKind>) {
    forall i, j :: 0 <= i < j < |ks| ==> Rank(ks[i]) < Rank(ks[j])
  }

  /** Operations that only make sense on the server side of a call. */
  predicate ServerOnly(k: OpKind) {
    k == SendStatusFromServer || k == RecvCloseOnServer
  }

  /** Operations that only make sense on the client side of a call. */
  predicate ClientOnly(k: OpKind) {
    k == SendCloseFromClient || k == RecvInitialMetadata || k == RecvStatusOnClient
  }

  /**
    The first batch of a client call. A call whose request is a single
    message sends it and half-closes in the same batch; a call whose response
    is a single message receives it in the same batch. Streamed directions
    are left to later single-operation batches.
   */
  function ClientShape(singleRequest: bool, singleResponse: bool): (ks: seq<OpKind>)
    ensures StrictlyOrdered(ks)
    ensures forall i :: 0 <= i < |ks| ==> !ServerOnly(ks[i])
    ensures |ks| == 3 + (if singleRequest then 2 else 0) + (if singleResponse then 1 else 0)
    ensures ks[0] == SendInitialMetadata && ks[|ks| - 1] == RecvStatusOnClient
    ensures SendMessage in ks <==> singleRequest
    ensures RecvMessage in ks <==> singleResponse
  {
    [SendInitialMetadata]
    + (if singleRequest then [SendMessage, SendCloseFromClient] else [])
    + [RecvInitialMetadata]
    + (if singleResponse then [RecvMessage] else [])
    + [RecvStatusOnClient]
  }

  function PayloadHandles(p: Payload): set<Handle> {
    match p
    case Message(b) => {b.id}
    case Status(_, d, _) => StringHandles(d)
    case _ => {}
  }

  /** Every allocation the request hands to the engine is owned by the context. */
  predicate InputsOwned(p: Prepared) {
    p.request.StartBatch? ==>
      forall i :: 0 <= i < |p.request.ops| ==> PayloadHandles(p.request.ops[i].payload) <= Owned(p.ctx)
  }

  /** The context with the callback and the two sendable inputs cleared. */
  function ClearInputs(ctx: BatchContext): BatchContext {
    ctx.(callback := None, sendMessage := None,
         sendStatusFromServer := ctx.sendStatusFromServer.(statusDetails := None))
  }

  /**
    What every builder guarantees: the context holds the given callback and
    is zero apart from the inputs the batch sends; everything the builder
    allocated is owned by the context, new, and unaliased; and the request
    hands the engine nothing the context does not own.
   */
  predicate WellPrepared(h: Heap, cb: Callback, p: Prepared) {
    && p.ctx.callback == Some(cb)
    && IsZeroed(ClearInputs(p.ctx))
    && p.heap.live == h.live + Footprint(p.tag, p.ctx)
    && h.next <= p.heap.next
    && (forall a :: a in Footprint(p.tag, p.ctx) ==> h.next <= a < p.heap.next)
    && Unaliased(p.tag, p.ctx)
    && InputsOwned(p)
  }

  /**
    What every builder guarantees, as written or corrected: the context
    holds the given callback, everything it owns is new and unaliased, it is
    live alongside everything that was live before, and whatever else the
    builder allocated is new as well.
   */
  predicate Built(h: Heap, cb: Callback, p: Prepared) {
    && p.ctx.callback == Some(cb)
    && h.next <= p.heap.next
    && h.live + Footprint(p.tag, p.ctx) <= p.heap.live
    && (forall a :: a in p.heap.live && a !in h.live ==> h.next <= a < p.heap.next)
    && (forall a :: a in Footprint(p.tag, p.ctx) ==> h.next <= a < p.heap.next)
    && Unaliased(p.tag, p.ctx)
  }

  datatype NewBuffer = NewBuffer(buffer: ByteBuffer, heap: Heap)

  /** string_to_byte_buffer: one freshly allocated slice holding a copy of the bytes. */
  function StringToByteBuffer(h: Heap, buffer: seq<byte>, len: nat): (r: NewBuffer)
    requires len <= |buffer|
    ensures Concat(r.buffer.slices) == buffer[..len]
    ensures r.heap.live == h.live + {r.buffer.id}
    ensures h.next <= r.buffer.id < r.heap.next
  {
    var a := Alloc(h);
    assert Concat([buffer[..len]]) == Concat([buffer[..len]][..0]) + buffer[..len];
    NewBuffer(ByteBuffer(a.handle, [buffer[..len]]), a.heap)
  }

  /** Creates the context of a builder and stores the callback in it. */
  function ContextWith(h: Heap, cb: Callback): (c: NewContext)
    ensures c.ctx.callback == Some(cb) && IsZeroed(ClearInputs(c.ctx))
    ensures c.ctx.sendMessage.None? && c.ctx.sendStatusFromServer.statusDetails.None?
    ensures c.heap.live == h.live + {c.tag}
    ensures h.next <= c.tag < c.heap.next
  {
    var c := Create(h);
    c.(ctx := c.ctx.(callback := Some(cb)))
  }

  /** A builder that sends nothing of its own: the context only carries the callback. */
  function PrepareWith(h: Heap, cb: Callback, request: Request): (p: Prepared)
    requires request.StartBatch? ==>
               forall i :: 0 <= i < |request.ops| ==> PayloadHandles(request.ops[i].payload) == {}
    ensures WellPrepared(h, cb, p)
    ensures p.request == request
    ensures p.ctx.sendMessage.None? && p.ctx.sendStatusFromServer.statusDetails.None?
  {
    var c := ContextWith(h, cb);
    Prepared(c.tag, c.ctx, request, c.heap)
  }

  /** A builder whose batch sends a copy of `sendBuffer[..sendBufferLen]`. */
  function PrepareWithMessage(h: Heap, cb: Callback, sendBuffer: seq<byte>, sendBufferLen: nat,
                              shape: seq<OpKind>): (p: Prepared)
    requires sendBufferLen <= |sendBuffer|
    ensures WellPrepared(h, cb, p)
    ensures p.request.StartBatch? && Kinds(p.request.ops) == shape
    ensures p.ctx.sendMessage.Some?
    ensures Concat(p.ctx.sendMessage.value.slices) == sendBuffer[..sendBufferLen]
    ensures p.ctx.sendStatusFromServer.statusDetails.None?
    ensures forall i :: 0 <= i < |p.request.ops| && p.request.ops[i].kind == SendMessage ==>
              p.request.ops[i].payload == Message(p.ctx.sendMessage.value)
    ensures forall i :: 0 <= i < |p.request.ops| && p.request.ops[i].kind == SendInitialMetadata ==>
              p.request.ops[i].payload == InitialMetadata(0)
  {
    var c := ContextWith(h, cb);
    var m := StringToByteBuffer(c.heap, sendBuffer, sendBufferLen);
    var ctx := c.ctx.(sendMessage := Some(m.buffer));
    var ops := seq(|shape|, i requires 0 <= i < |shape| =>
      match shape[i]
      case SendInitialMetadata => Op(SendInitialMetadata, InitialMetadata(0))
      case SendMessage => Op(SendMessage, Message(m.buffer))
      case k => Op(k, NoPayload));
    var p := Prepared(c.tag, ctx, StartBatch(ops), m.heap);
    assert Footprint(p.tag, ctx) == {c.tag, m.buffer.id};
    p
  }

  /** The operations of a batch that sends nothing but initial metadata (with no entries). */
  function PlainOps(shape: seq<OpKind>): (ops: seq<Op>)
    ensures Kinds(ops) == shape
    ensures forall i :: 0 <= i < |ops| ==> PayloadHandles(ops[i].payload) == {}
    ensures forall i :: 0 <= i < |ops| && ops[i].kind == SendInitialMetadata ==>
              ops[i].payload == InitialMetadata(0)
  {
    seq(|shape|, i requires 0 <= i < |shape| =>
      if shape[i] == SendInitialMetadata then Op(SendInitialMetadata, InitialMetadata(0))
      else Op(shape[i], NoPayload))
  }

  /** grpcsharp_call_start_unary: a single request and a single response. */
  function PrepareUnary(h: Heap, cb: Callback, sendBuffer: seq<byte>, sendBufferLen: nat): (p: Prepared)
    requires sendBufferLen <= |sendBuffer|
    ensures WellPrepared(h, cb, p)
    ensures p.request.StartBatch?
    ensures Kinds(p.request.ops) == ClientShape(true, true)
    ensures Kinds(p.request.ops) == [SendInitialMetadata, SendMessage, SendCloseFromClient,
                                     RecvInitialMetadata, RecvMessage, RecvStatusOnClient]
    ensures p.ctx.sendMessage.Some?
    ensures Concat(p.ctx.sendMessage.value.slices) == sendBuffer[..sendBufferLen]
    ensures p.request.ops[0].payload == InitialMetadata(0)
    ensures p.request.ops[1].payload == Message(p.ctx.sendMessage.value)
    ensures p.ctx.sendStatusFromServer.statusDetails.None?
  {
    assert ClientShape(true, true) == [SendInitialMetadata, SendMessage, SendCloseFromClient,
                                       RecvInitialMetadata, RecvMessage, RecvStatusOnClient];
    PrepareWithMessage(h, cb, sendBuffer, sendBufferLen, ClientShape(true, true))
  }

  /** grpcsharp_call_start_client_streaming: requests streamed, a single response. */
  function PrepareClientStreaming(h: Heap, cb: Callback): (p: Prepared)
    ensures WellPrepared(h, cb, p)
    ensures p.request.StartBatch?
    ensures Kinds(p.request.ops) == ClientShape(false, true)
    ensures Kinds(p.request.ops) == [SendInitialMetadata, RecvInitialMetadata, RecvMessage, RecvStatusOnClient]
    ensures p.request.ops[0].payload == InitialMetadata(0)
    ensures p.ctx.sendMessage.None? && p.ctx.sendStatusFromServer.statusDetails.None?
  {
    PrepareWith(h, cb, StartBatch(PlainOps(ClientShape(false, true))))
  }

  /** grpcsharp_call_start_server_streaming: a single request, responses streamed. */
  function PrepareServerStreaming(h: Heap, cb: Callback, sendBuffer: seq<byte>, sendBufferLen: nat): (p: Prepared)
    requires sendBufferLen <= |sendBuffer|
    ensures WellPrepared(h, cb, p)
    ensures p.request.StartBatch?
    ensures Kinds(p.request.ops) == ClientShape(true, false)
    ensures Kinds(p.request.ops) == [SendInitialMetadata, SendMessage, SendCloseFromClient,
                                     RecvInitialMetadata, RecvStatusOnClient]
    ensures p.ctx.sendMessage.Some?
    ensures Concat(p.ctx.sendMessage.value.slices) == sendBuffer[..sendBufferLen]
    ensures p.request.ops[0].payload == InitialMetadata(0)
    ensures p.request.ops[1].payload == Message(p.ctx.sendMessage.value)
    ensures p.ctx.sendStatusFromServer.statusDetails.None?
  {
    assert ClientShape(true, false) == [SendInitialMetadata, SendMessage, SendCloseFromClient,
                                        RecvInitialMetadata, RecvStatusOnClient];
    PrepareWithMessage(h, cb, sendBuffer, sendBufferLen, ClientShape(true, false))
  }

  /** grpcsharp_call_start_duplex_streaming: both directions streamed. */
  function PrepareDuplexStreaming(h: Heap, cb: Callback): (p: Prepared)
    ensures WellPrepared(h, cb, p)
    ensures p.request.StartBatch?
    ensures Kinds(p.request.ops) == ClientShape(false, false)
    ensures Kinds(p.request.ops) == [SendInitialMetadata, RecvInitialMetadata, RecvStatusOnClient]
    ensures p.request.ops[0].payload == InitialMetadata(0)
    ensures p.ctx.sendMessage.None? && p.ctx.sendStatusFromServer.statusDetails.None?
  {
    PrepareWith(h, cb, StartBatch(PlainOps(ClientShape(false, false))))
  }

  /** grpcsharp_call_send_message: one SendMessage carrying a copy of the bytes. */
  function PrepareSendMessage(h: Heap, cb: Callback, sendBuffer: seq<byte>, sendBufferLen: nat): (p: Prepared)
    requires sendBufferLen <= |sendBuffer|
    ensures WellPrepared(h, cb, p)
    ensures p.request.StartBatch?
    ensures Kinds(p.request.ops) == [SendMessage]
    ensures p.ctx.sendMessage.Some?
    ensures p.request.ops[0].payload == Message(p.ctx.sendMessage.value)
    ensures Concat(p.ctx.sendMessage.value.slices) == sendBuffer[..sendBufferLen]
    ensures p.ctx.sendStatusFromServer.statusDetails.None?
  {
    PrepareWithMessage(h, cb, sendBuffer, sendBufferLen, [SendMessage])
  }

  /** grpcsharp_call_send_close_from_client: one half-close. */
  function PrepareSendCloseFromClient(h: Heap, cb: Callback): (p: Prepared)
    ensures WellPrepared(h, cb, p)
    ensures p.request.StartBatch?
    ensures Kinds(p.request.ops) == [SendCloseFromClient]
    ensures Owned(p.ctx) == {}
  {
    PrepareWith(h, cb, StartBatch(PlainOps([SendCloseFromClient])))
  }

  /** grpcsharp_call_recv_message: one RecvMessage into the context. */
  function PrepareRecvMessage(h: Heap, cb: Callback): (p: Prepared)
    ensures WellPrepared(h, cb, p)
    ensures p.request.StartBatch?
    ensures Kinds(p.request.ops) == [RecvMessage]
    ensures Owned(p.ctx) == {}
  {
    PrepareWith(h, cb, StartBatch(PlainOps([RecvMessage])))
  }

  /** grpcsharp_call_start_serverside: initial metadata out, then wait for the client's close. */
  function PrepareServerside(h: Heap, cb: Callback): (p: Prepared)
    ensures WellPrepared(h, cb, p)
    ensures p.request.StartBatch?
    ensures Kinds(p.request.ops) == [SendInitialMetadata, RecvCloseOnServer]
    ensures p.request.ops[0].payload == InitialMetadata(0)
    ensures StrictlyOrdered(Kinds(p.request.ops))
    ensures forall i :: 0 <= i < |p.request.ops| ==> !ClientOnly(p.request.ops[i].kind)
    ensures p.ctx.sendMessage.None? && p.ctx.sendStatusFromServer.statusDetails.None?
  {
    PrepareWith(h, cb, StartBatch(PlainOps([SendInitialMetadata, RecvCloseOnServer])))
  }

  /**
    grpcsharp_server_request_call: a context whose server-call fields the
    engine fills when a call arrives.
   */
  function PrepareServerRequestCall(h: Heap, cb: Callback): (p: Prepared)
    ensures WellPrepared(h, cb, p)
    ensures p.request == RequestCall
    ensures Owned(p.ctx) == {}
  {
    PrepareWith(h, cb, RequestCall)
  }

  /**
    grpcsharp_call_send_status_from_server as written: the copy of the
    details goes into the operation only, and the context's own details
    field, the one destroy frees, stays null.
   */
  function PrepareSendStatusFromServerAsWritten(h: Heap, cb: Callback, status: int, details: string)
    : (p: Prepared)
    ensures p.request.StartBatch? && Kinds(p.request.ops) == [SendStatusFromServer]
    ensures p.request.ops[0].payload.Status? && p.request.ops[0].payload.code == status
    ensures p.request.ops[0].payload.trailingMetadataCount == 0
    ensures p.ctx.callback == Some(cb) && IsZeroed(ClearInputs(p.ctx))
    ensures p.ctx.sendMessage.None? && p.ctx.sendStatusFromServer.statusDetails.None?
    ensures !InputsOwned(p)
    ensures Built(h, cb, p)
    ensures var d := p.request.ops[0].payload.details;
            && d.Some? && d.value.text == details
            && d.value.id !in Footprint(p.tag, p.ctx)
            && h.next <= d.value.id < p.heap.next
            && p.heap.live == h.live + Footprint(p.tag, p.ctx) + {d.value.id}
            && (Valid(h) ==> d.value.id !in h.live)
  {
    var c := ContextWith(h, cb);
    var d := Alloc(c.heap);
    assert d.handle !in Owned(c.ctx);
    Prepared(c.tag, c.ctx,
             StartBatch([Op(SendStatusFromServer, Status(status, Some(CString(d.handle, details)), 0))]),
             d.heap)
  }

  /**
    grpcsharp_call_send_status_from_server, with the copy of the details
    stored in the context so that destroying the context frees it.
   */
  function PrepareSendStatusFromServer(h: Heap, cb: Callback, status: int, details: string)
    : (p: Prepared)
    ensures WellPrepared(h, cb, p)
    ensures p.request.StartBatch? && Kinds(p.request.ops) == [SendStatusFromServer]
    ensures p.request.ops[0].payload.Status? && p.request.ops[0].payload.code == status
    ensures p.request.ops[0].payload.trailingMetadataCount == 0
    ensures p.ctx.sendStatusFromServer.statusDetails.Some?
    ensures p.ctx.sendStatusFromServer.statusDetails.value.text == details
    ensures p.request.ops[0].payload.details == p.ctx.sendStatusFromServer.statusDetails
    ensures p.ctx.sendMessage.None?
  {
    var c := ContextWith(h, cb);
    var d := Alloc(c.heap);
    var copy := Some(CString(d.handle, details));
    var ctx := c.ctx.(sendStatusFromServer := c.ctx.sendStatusFromServer.(statusDetails := copy));
    var p := Prepared(c.tag, ctx, StartBatch([Op(SendStatusFromServer, Status(status, copy, 0))]), d.heap);
    assert Footprint(p.tag, ctx) == {c.tag, d.handle};
    p
  }

  /** A call of one of the builders, as the managed side makes it. */
  datatype Builder =
    | Unary(cb: Callback, sendBuffer: seq<byte>, sendBufferLen: nat)
    | ClientStreaming(cb: Callback)
    | ServerStreaming(cb: Callback, sendBuffer: seq<byte>, sendBufferLen: nat)
    | DuplexStreaming(cb: Callback)
    | SendMessageCall(cb: Callback, sendBuffer: seq<byte>, sendBufferLen: nat)
    | SendCloseFromClientCall(cb: Callback)
    | SendStatusFromServerCall(cb: Callback, status: int, details: string)
    | RecvMessageCall(cb: Callback)
    | Serverside(cb: Callback)
    | ServerRequestCall(cb: Callback)
  {
    /** The send buffer holds at least the declared number of bytes. */
    predicate Valid() {
      (Unary? || ServerStreaming? || SendMessageCall?) ==> sendBufferLen <= |sendBuffer|
    }
  }

  /** A builder call the source can make safely: its send buffer is long enough. */
  type ValidBuilder = b: Builder | b.Valid() witness ClientStreaming(0)

  /** The source as written, or with the findings of this model corrected. */
  datatype Version = AsWritten | Corrected

  /** The builder a call names, run on heap `h`. */
  function Call(h: Heap, b: ValidBuilder, v: Version): Prepared
  {
    match b
    case Unary(cb, buf, len) => PrepareUnary(h, cb, buf, len)
    case ClientStreaming(cb) => PrepareClientStreaming(h, cb)
    case ServerStreaming(cb, buf, len) => PrepareServerStreaming(h, cb, buf, len)
    case DuplexStreaming(cb) => PrepareDuplexStreaming(h, cb)
    case SendMessageCall(cb, buf, len) => PrepareSendMessage(h, cb, buf, len)
    case SendCloseFromClientCall(cb) => PrepareSendCloseFromClient(h, cb)
    case SendStatusFromServerCall(cb, status, details) =>
      if v == AsWritten then PrepareSendStatusFromServerAsWritten(h, cb, status, details)
      else PrepareSendStatusFromServer(h, cb, status, details)
    case RecvMessageCall(cb) => PrepareRecvMessage(h, cb)
    case Serverside(cb) => PrepareServerside(h, cb)
    case ServerRequestCall(cb) => PrepareServerRequestCall(h, cb)
  }

  /**
    A call of a builder. As written, grpcsharp_call_send_status_from_server
    leaves its copy of the details outside the context; corrected, and for
    every other builder, the batch is well prepared.
   */
  function Prepare(h: Heap, b: ValidBuilder, v: Version): (p: Prepared)
    ensures Built(h, b.cb, p)
    ensures v == Corrected || !b.SendStatusFromServerCall? ==> WellPrepared(h, b.cb, p)
    ensures v == AsWritten && b.SendStatusFromServerCall? ==> !InputsOwned(p)
  {
    Call(h, b, v)
  }
}
