/**
  The batch context: the per-batch record that keeps the inputs of a batch
  alive and receives its outputs, its creation, its destruction, and the two
  accessors that read the received message out of it.
 */
module Context {
  import opened Memory

  /** A NUL-terminated string that was allocated (by gpr_strdup or by the engine). */
  datatype CString = CString(id: Handle, text: string)

  /** A byte buffer: its allocation and the slices it holds, in order. */
  datatype ByteBuffer = ByteBuffer(id: Handle, slices: seq<seq<byte>>)

  /**
    grpc_metadata_array. The storage of the entries is the only allocation
    the shim releases; the keys and values the entries point to are not.
   */
  datatype MetadataArray = MetadataArray(count: nat, capacity: nat, metadata: Option<Handle>)

  /** grpc_call_details of a call the server accepted (the deadline is not modelled). */
  datatype CallDetails = CallDetails(methodName: Option<CString>, host: Option<CString>)

  datatype StatusToSend = StatusToSend(trailingMetadata: MetadataArray, statusDetails: Option<CString>)

  datatype ClientStatus = ClientStatus(
    trailingMetadata: MetadataArray,
    status: int,
    statusDetails: Option<CString>,
    statusDetailsCapacity: nat)

  datatype NewServerCall = NewServerCall(
    call: Option<Handle>,
    callDetails: CallDetails,
    requestMetadata: MetadataArray)

  /** The identity of a managed completion callback (a function pointer). */
  type Callback = nat

  /** grpcsharp_batch_context. */
  datatype BatchContext = BatchContext(
    sendInitialMetadata: MetadataArray,
    sendMessage: Option<ByteBuffer>,
    sendStatusFromServer: StatusToSend,
    recvInitialMetadata: MetadataArray,
    recvMessage: Option<ByteBuffer>,
    recvStatusOnClient: ClientStatus,
    recvCloseOnServerCancelled: int,
    serverRpcNew: NewServerCall,
    callback: Option<Callback>)

  predicate EmptyArray(a: MetadataArray) {
    a.count == 0 && a.capacity == 0 && a.metadata.None?
  }

  /** Every pointer of the context is null and every number is zero. */
  predicate IsZeroed(ctx: BatchContext) {
    && EmptyArray(ctx.sendInitialMetadata)
    && ctx.sendMessage.None?
    && EmptyArray(ctx.sendStatusFromServer.trailingMetadata)
    && ctx.sendStatusFromServer.statusDetails.None?
    && EmptyArray(ctx.recvInitialMetadata)
    && ctx.recvMessage.None?
    && EmptyArray(ctx.recvStatusOnClient.trailingMetadata)
    && ctx.recvStatusOnClient.status == 0
    && ctx.recvStatusOnClient.statusDetails.None?
    && ctx.recvStatusOnClient.statusDetailsCapacity == 0
    && ctx.recvCloseOnServerCancelled == 0
    && ctx.serverRpcNew.call.None?
    && ctx.serverRpcNew.callDetails.methodName.None?
    && ctx.serverRpcNew.callDetails.host.None?
    && EmptyArray(ctx.serverRpcNew.requestMetadata)
    && ctx.callback.None?
  }

  function ArrayHandles(a: MetadataArray): set<Handle> {
    if a.metadata.Some? then {a.metadata.value} else {}
  }

  function StringHandles(s: Option<CString>): set<Handle> {
    if s.Some? then {s.value.id} else {}
  }

  function BufferHandles(b: Option<ByteBuffer>): set<Handle> {
    if b.Some? then {b.value.id} else {}
  }

  /**
    The allocations the context owns: every buffer, metadata array and
    string it holds. The accepted server call is absent on purpose: the
    completion handler takes it over. The callback is a code pointer, not
    an allocation.
   */
  function Owned(ctx: BatchContext): set<Handle> {
    ArrayHandles(ctx.sendInitialMetadata)
    + BufferHandles(ctx.sendMessage)
    + ArrayHandles(ctx.sendStatusFromServer.trailingMetadata)
    + StringHandles(ctx.sendStatusFromServer.statusDetails)
    + ArrayHandles(ctx.recvInitialMetadata)
    + BufferHandles(ctx.recvMessage)
    + ArrayHandles(ctx.recvStatusOnClient.trailingMetadata)
    + StringHandles(ctx.recvStatusOnClient.statusDetails)
    + StringHandles(ctx.serverRpcNew.callDetails.methodName)
    + StringHandles(ctx.serverRpcNew.callDetails.host)
    + ArrayHandles(ctx.serverRpcNew.requestMetadata)
  }

  /** The context allocation together with everything it owns. */
  function Footprint(tag: Handle, ctx: BatchContext): set<Handle> {
    {tag} + Owned(ctx)
  }

  datatype NewContext = NewContext(tag: Handle, ctx: BatchContext, heap: Heap)

  /** grpcsharp_batch_context_create: a fresh, zero-filled context. */
  function Create(h: Heap): (r: NewContext)
    ensures IsZeroed(r.ctx)
    ensures Owned(r.ctx) == {}
    ensures r.heap.live == h.live + {r.tag}
    ensures h.next <= r.tag < r.heap.next
    ensures Valid(h) ==> Valid(r.heap) && r.tag !in h.live
  {
    var a := Alloc(h);
    var none := MetadataArray(0, 0, None);
    NewContext(
      a.handle,
      BatchContext(
        none, None, StatusToSend(none, None), none, None,
        ClientStatus(none, 0, None, 0), 0,
        NewServerCall(None, CallDetails(None, None), none), None),
      a.heap)
  }

  /** grpc_metadata_array_destroy: releases the entry storage. */
  function MetadataArrayDestroy(a: MetadataArray): seq<Handle> {
    NonNull(a.metadata)
  }

  /**
    grpcsharp_metadata_array_destroy_recursive: returns early when the entry
    storage is null, and otherwise destroys the array; the keys and values
    are not released. Skipping a null array releases the same as destroying it.
   */
  function MetadataArrayDestroyRecursive(a: MetadataArray): (r: seq<Handle>)
    ensures r == MetadataArrayDestroy(a)
    ensures Elems(r) == ArrayHandles(a)
  {
    if a.metadata.None? then [] else MetadataArrayDestroy(a)
  }

  /** grpc_byte_buffer_destroy, which accepts null. */
  function ByteBufferDestroy(b: Option<ByteBuffer>): seq<Handle> {
    NonNull(if b.Some? then Some(b.value.id) else None)
  }

  /** gpr_free of a string, which accepts null. */
  function StringFree(s: Option<CString>): seq<Handle> {
    NonNull(if s.Some? then Some(s.value.id) else None)
  }

  /** grpc_call_details_destroy: releases the method and the host. */
  function CallDetailsDestroy(d: CallDetails): seq<Handle> {
    StringFree(d.methodName) + StringFree(d.host)
  }

  /** The non-null pointers grpcsharp_batch_context_destroy frees, in its order. */
  function ReleaseOrder(tag: Handle, ctx: BatchContext): seq<Handle> {
    MetadataArrayDestroyRecursive(ctx.sendInitialMetadata)
    + ByteBufferDestroy(ctx.sendMessage)
    + MetadataArrayDestroyRecursive(ctx.sendStatusFromServer.trailingMetadata)
    + StringFree(ctx.sendStatusFromServer.statusDetails)
    + MetadataArrayDestroy(ctx.recvInitialMetadata)
    + ByteBufferDestroy(ctx.recvMessage)
    + MetadataArrayDestroy(ctx.recvStatusOnClient.trailingMetadata)
    + StringFree(ctx.recvStatusOnClient.statusDetails)
    + CallDetailsDestroy(ctx.serverRpcNew.callDetails)
    + MetadataArrayDestroy(ctx.serverRpcNew.requestMetadata)
    + [tag]
  }

  /** No allocation is held by two fields of the context (or is the context itself). */
  predicate Unaliased(tag: Handle, ctx: BatchContext) {
    Distinct(ReleaseOrder(tag, ctx))
  }

  /** The context and all it owns are live and unaliased: destroying it is safe. */
  predicate Holds(h: Heap, tag: Handle, ctx: BatchContext) {
    Unaliased(tag, ctx) && Footprint(tag, ctx) <= h.live
  }

  lemma ArrayReleased(a: MetadataArray)
    ensures Elems(MetadataArrayDestroy(a)) == ArrayHandles(a)
  {
  }

  lemma BufferReleased(b: Option<ByteBuffer>)
    ensures Elems(ByteBufferDestroy(b)) == BufferHandles(b)
  {
  }

  lemma StringReleased(s: Option<CString>)
    ensures Elems(StringFree(s)) == StringHandles(s)
  {
  }

  lemma ReleaseOrderCoversFootprint(tag: Handle, ctx: BatchContext)
    ensures Elems(ReleaseOrder(tag, ctx)) == Footprint(tag, ctx)
  {
    var d := ctx.serverRpcNew.callDetails;
    var o1 := MetadataArrayDestroyRecursive(ctx.sendInitialMetadata);
    var w1 := ArrayHandles(ctx.sendInitialMetadata);
    var o2 := o1 + ByteBufferDestroy(ctx.sendMessage);
    var w2 := w1 + BufferHandles(ctx.sendMessage);
    assert Elems(o2) == w2 by {
      ElemsAppend(o1, ByteBufferDestroy(ctx.sendMessage));
      BufferReleased(ctx.sendMessage);
    }
    var o3 := o2 + MetadataArrayDestroyRecursive(ctx.sendStatusFromServer.trailingMetadata);
    var w3 := w2 + ArrayHandles(ctx.sendStatusFromServer.trailingMetadata);
    assert Elems(o3) == w3 by {
      ElemsAppend(o2, MetadataArrayDestroyRecursive(ctx.sendStatusFromServer.trailingMetadata));
    }
    var o4 := o3 + StringFree(ctx.sendStatusFromServer.statusDetails);
    var w4 := w3 + StringHandles(ctx.sendStatusFromServer.statusDetails);
    assert Elems(o4) == w4 by {
      ElemsAppend(o3, StringFree(ctx.sendStatusFromServer.statusDetails));
      StringReleased(ctx.sendStatusFromServer.statusDetails);
    }
    var o5 := o4 + MetadataArrayDestroy(ctx.recvInitialMetadata);
    var w5 := w4 + ArrayHandles(ctx.recvInitialMetadata);
    assert Elems(o5) == w5 by {
      ElemsAppend(o4, MetadataArrayDestroy(ctx.recvInitialMetadata));
      ArrayReleased(ctx.recvInitialMetadata);
    }
    var o6 := o5 + ByteBufferDestroy(ctx.recvMessage);
    var w6 := w5 + BufferHandles(ctx.recvMessage);
    assert Elems(o6) == w6 by {
      ElemsAppend(o5, ByteBufferDestroy(ctx.recvMessage));
      BufferReleased(ctx.recvMessage);
    }
    var o7 := o6 + MetadataArrayDestroy(ctx.recvStatusOnClient.trailingMetadata);
    var w7 := w6 + ArrayHandles(ctx.recvStatusOnClient.trailingMetadata);
    assert Elems(o7) == w7 by {
      ElemsAppend(o6, MetadataArrayDestroy(ctx.recvStatusOnClient.trailingMetadata));
      ArrayReleased(ctx.recvStatusOnClient.trailingMetadata);
    }
    var o8 := o7 + StringFree(ctx.recvStatusOnClient.statusDetails);
    var w8 := w7 + StringHandles(ctx.recvStatusOnClient.statusDetails);
    assert Elems(o8) == w8 by {
      ElemsAppend(o7, StringFree(ctx.recvStatusOnClient.statusDetails));
      StringReleased(ctx.recvStatusOnClient.statusDetails);
    }
    var o9 := o8 + CallDetailsDestroy(d);
    var w9 := w8 + StringHandles(d.methodName) + StringHandles(d.host);
    assert Elems(o9) == w9 by {
      ElemsAppend(o8, CallDetailsDestroy(d));
      ElemsAppend(StringFree(d.methodName), StringFree(d.host));
      StringReleased(d.methodName);
      StringReleased(d.host);
    }
    var o10 := o9 + MetadataArrayDestroy(ctx.serverRpcNew.requestMetadata);
    var w10 := w9 + ArrayHandles(ctx.serverRpcNew.requestMetadata);
    assert Elems(o10) == w10 by {
      ElemsAppend(o9, MetadataArrayDestroy(ctx.serverRpcNew.requestMetadata));
      ArrayReleased(ctx.serverRpcNew.requestMetadata);
    }
    assert w10 == Owned(ctx);
    assert ReleaseOrder(tag, ctx) == o10 + [tag];
    ElemsAppend(o10, [tag]);
    assert Elems([tag]) == {tag};
  }

  /**
    grpcsharp_batch_context_destroy. A null context is a no-op. Otherwise it
    frees the whole footprint exactly once, and never the accepted server
    call; it fails (a double free) exactly when two fields share an
    allocation or something it frees is no longer live.
   */
  function Destroy(h: Heap, p: Option<(Handle, BatchContext)>): (r: Freed)
    ensures p.None? ==> r == Freed(h)
    ensures p.Some? ==> (r.Freed? <==> Holds(h, p.value.0, p.value.1))
    ensures p.Some? && r.Freed? ==>
              r.heap == Heap(h.live - Footprint(p.value.0, p.value.1), h.next)
  {
    match p
    case None => Freed(h)
    case Some((tag, ctx)) =>
      FreeAllReleasesExactly(h, ReleaseOrder(tag, ctx));
      ReleaseOrderCoversFootprint(tag, ctx);
      FreeAll(h, ReleaseOrder(tag, ctx))
  }

  /**
    The accepted server call survives the destruction of its context,
    provided the context does not also own it.
   */
  lemma DestroyKeepsServerCall(h: Heap, tag: Handle, ctx: BatchContext)
    requires ctx.serverRpcNew.call.Some?
    requires ctx.serverRpcNew.call.value in h.live
    requires ctx.serverRpcNew.call.value !in Footprint(tag, ctx)
    requires Destroy(h, Some((tag, ctx))).Freed?
    ensures ctx.serverRpcNew.call.value in Destroy(h, Some((tag, ctx))).heap.live
  {
  }

  /** Destroying a context a second time is a double free. */
  lemma DestroyTwiceFails(h: Heap, tag: Handle, ctx: BatchContext)
    requires Destroy(h, Some((tag, ctx))).Freed?
    ensures Destroy(Destroy(h, Some((tag, ctx))).heap, Some((tag, ctx))).DoubleFree?
  {
  }

  /** The bytes of a message: its slices, back to back. */
  function Concat(slices: seq<seq<byte>>): seq<byte> {
    if |slices| == 0 then [] else Concat(slices[..|slices| - 1]) + slices[|slices| - 1]
  }

  /** grpc_byte_buffer_length: the sum of the slice lengths. */
  function ByteBufferLength(slices: seq<seq<byte>>): (n: nat)
    ensures n == |Concat(slices)|
  {
    if |slices| == 0 then 0
    else ByteBufferLength(slices[..|slices| - 1]) + |slices[|slices| - 1]|
  }

  /**
    grpcsharp_batch_context_recv_message_length: -1 when no message was
    received, and otherwise the number of bytes of the message.
   */
  function RecvMessageLength(ctx: BatchContext): (n: int)
    ensures n == -1 <==> ctx.recvMessage.None?
    ensures ctx.recvMessage.Some? ==> n == |Concat(ctx.recvMessage.value.slices)|
  {
    if ctx.recvMessage.None? then -1 else ByteBufferLength(ctx.recvMessage.value.slices)
  }

  /** memcpy(dst + offset, src, |src|). */
  function Memcpy(dst: seq<byte>, offset: nat, src: seq<byte>): (r: seq<byte>)
    requires offset + |src| <= |dst|
    ensures |r| == |dst|
    ensures r[..offset] == dst[..offset]
    ensures r[offset..offset + |src|] == src
    ensures r[offset + |src|..] == dst[offset + |src|..]
  {
    dst[..offset] + src + dst[offset + |src|..]
  }

  lemma {:induction false} ConcatPrefixShorter(slices: seq<seq<byte>>, i: nat)
    requires i <= |slices|
    ensures |Concat(slices[..i])| <= |Concat(slices)|
    decreases |slices| - i
  {
    if i < |slices| {
      ConcatPrefixShorter(slices, i + 1);
      assert slices[..i + 1][..i] == slices[..i];
    } else {
      assert slices[..i] == slices;
    }
  }

  datatype Copy = Copied(buffer: seq<byte>) | BufferTooSmall

  /**
    grpcsharp_batch_context_recv_message_to_buffer. `buffer` is the caller's
    memory and `bufferLen` the length the caller declares for it. The slices
    are copied back to back; the copy stops with a failed assertion, before
    writing, at the first slice that would end past `bufferLen`. That happens
    exactly when the message is longer than `bufferLen`; otherwise the first
    bytes of the buffer become the message and nothing else changes.
   */
  method RecvMessageToBuffer(ctx: BatchContext, buffer: seq<byte>, bufferLen: nat)
    returns (r: Copy)
    requires ctx.recvMessage.Some?
    requires bufferLen <= |buffer|
    ensures r.Copied? <==> RecvMessageLength(ctx) <= bufferLen
    ensures r.Copied? ==> |r.buffer| == |buffer|
    ensures r.Copied? ==> r.buffer[..RecvMessageLength(ctx)] == Concat(ctx.recvMessage.value.slices)
    ensures r.Copied? ==> r.buffer[RecvMessageLength(ctx)..] == buffer[RecvMessageLength(ctx)..]
    ensures r.Copied? ==> r.buffer[bufferLen..] == buffer[bufferLen..]
  {
    var slices := ctx.recvMessage.value.slices;
    var out := buffer;
    var offset: nat := 0;
    var i := 0;
    while i < |slices|
      invariant 0 <= i <= |slices|
      invariant offset == |Concat(slices[..i])| <= bufferLen
      invariant |out| == |buffer|
      invariant out[..offset] == Concat(slices[..i])
      invariant out[offset..] == buffer[offset..]
    {
      var len := |slices[i]|;
      assert slices[..i + 1][..i] == slices[..i];
      if offset + len > bufferLen {
        ConcatPrefixShorter(slices, i + 1);
        assert slices == slices[..|slices|];
        return BufferTooSmall;
      }
      var next := Memcpy(out, offset, slices[i]);
      assert next[..offset + len] == next[..offset] + next[offset..offset + len];
      assert next[offset + len..] == buffer[offset + len..] by {
        assert out[offset + len..] == out[offset..][len..];
      }
      out := next;
      offset := offset + len;
      i := i + 1;
    }
    assert slices[..i] == slices;
    r := Copied(out);
  }
}
