# gRPC C# native shim: batch contexts, dispatch, batch builders, channel args

This project models the part of the gRPC C# extension library's native shim
(`src/csharp/ext/grpc_csharp_ext.c`) that has logic of its own. The rest of
that file forwards calls to the gRPC core engine unchanged. The modelled parts are:

- the **batch context**: created zero-filled, given a callback, handed to
  the engine as the tag of one batch, destroyed after the callback ran.
  Destroying it frees everything it owns except the server call it accepted.
- the **completion dispatcher** `grpcsharp_completion_queue_next_with_callback`.
  It branches on the event type and on whether the event has a tag, and it
  always returns the event type.
  `grpcsharp_call_blocking_unary` is modelled on top of it.
- the **batch builders** (`grpcsharp_call_start_*`, `grpcsharp_call_send_*`,
  `grpcsharp_call_recv_message`, `grpcsharp_call_start_serverside`,
  `grpcsharp_server_request_call`). Each fills a fresh context and submits a
  fixed, ordered list of operations.
- the **received-message copy** `grpcsharp_batch_context_recv_message_to_buffer`
  and its companion `grpcsharp_batch_context_recv_message_length`.
- the **channel-argument array**: `create`, `set_string` and `destroy`.

Memory is modelled as allocation identities (`Memory.Handle`) drawn from a
counter, and the heap is the set of live ones. Freeing one that is not live
is an explicit `DoubleFree` outcome rather than undefined behaviour. A
failed `GPR_ASSERT`, and the undefined behaviour of calling through a tag of
the wrong kind, are explicit `Crashed` outcomes. The engine is external:
`grpc_call_start_batch` becomes a `CallError` parameter, and the events
`grpc_completion_queue_next` delivers become `Event` parameters. Dispatch
runs over a sequential stream of such events.

Modules:

- `Memory`: heap, allocation, release lists.
- `Context`: the context record, create, destroy, message length and copy.
- `Batch`: the builders.
- `Dispatch`: submission, the dispatcher, whole-run invariants, the blocking unary call.
- `ChannelArgs`: the channel-argument array.

## Model

| member | source | states |
|---|---|---|
| `Context.Create` | src/csharp/ext/grpc_csharp_ext.c:99-103 | The new context is entirely zero: no callback and no owned allocation. Its identity is fresh and it is the only allocation added. |
| `Context.MetadataArrayDestroyRecursive` | src/csharp/ext/grpc_csharp_ext.c:108-114 | A metadata array with null storage releases nothing. Otherwise only the storage is released, never the keys and values. Either way this equals a plain array destroy. |
| `Context.Destroy` | src/csharp/ext/grpc_csharp_ext.c:116-143 | Null is a no-op. Otherwise exactly the context and what it owns are freed: messages, metadata arrays, both status-detail strings, call details, request metadata. It succeeds exactly when none of these is shared or already freed. |
| `Context.DestroyKeepsServerCall` | src/csharp/ext/grpc_csharp_ext.c:135-137 | The server call the context accepted is still live after the context is destroyed. |
| `Context.DestroyTwiceFails` | src/csharp/ext/grpc_csharp_ext.c:142 | Destroying the same context a second time is a double free. |
| `Context.RecvMessageLength` | src/csharp/ext/grpc_csharp_ext.c:145-151 | The result is -1 if and only if no message was received. Otherwise it is the byte length of the message's slices joined together. |
| `Context.ByteBufferLength` | src/csharp/ext/grpc_csharp_ext.c:150 | A buffer's length is the length of its slices joined back to back. |
| `Context.RecvMessageToBuffer` | src/csharp/ext/grpc_csharp_ext.c:157-174 | The copy succeeds exactly when the message fits in `buffer_len`, and otherwise the assertion fails. On success the buffer starts with the message's bytes in slice order. Every byte past the message, and so every byte at or past `buffer_len`, is unchanged. |
| `Batch.StringToByteBuffer` | src/csharp/ext/grpc_csharp_ext.c:59-64 | A fresh buffer whose bytes are exactly the first `len` bytes given. |
| `Batch.PrepareUnary` | src/csharp/ext/grpc_csharp_ext.c:347-385 | The ops are send initial metadata, send message, send close, receive initial metadata, receive message, receive status. The initial metadata has no entries, and the send-message op carries the context's own copy of the request bytes. The context holds the callback and a copy of the request bytes. Every other field, the status details included, is null or zero. It owns everything the batch hands over. |
| `Batch.PrepareClientStreaming` | src/csharp/ext/grpc_csharp_ext.c:404-436 | The ops are send initial metadata, receive initial metadata, receive message, receive status. The initial metadata has no entries. The context holds the callback, and every other field, both send inputs included, is null or zero. |
| `Batch.PrepareServerStreaming` | src/csharp/ext/grpc_csharp_ext.c:438-475 | The ops are send initial metadata, send message, send close, receive initial metadata, receive status. The initial metadata has no entries, and the send-message op carries the context's own copy of the request bytes. The context holds the callback and a copy of the request bytes. Every other field, the status details included, is null or zero. |
| `Batch.PrepareDuplexStreaming` | src/csharp/ext/grpc_csharp_ext.c:477-506 | The ops are send initial metadata, receive initial metadata, receive status. The initial metadata has no entries. The context holds the callback, and every other field, both send inputs included, is null or zero. |
| `Batch.PrepareSendMessage` | src/csharp/ext/grpc_csharp_ext.c:508-521 | One send-message op whose payload is the context's own copy of the bytes. Apart from the callback, every other field, the status details included, is null or zero. |
| `Batch.PrepareSendCloseFromClient` | src/csharp/ext/grpc_csharp_ext.c:523-534 | One half-close op. The context owns nothing. |
| `Batch.PrepareSendStatusFromServerAsWritten` | src/csharp/ext/grpc_csharp_ext.c:536-554 | One send-status op carrying the status code, no trailing metadata and a fresh copy of the details. The context's own details field stays null, so the copy is live but outside what destroy frees. Apart from the callback, every other field of the context is null or zero. |
| `Batch.PrepareSendStatusFromServer` | src/csharp/ext/grpc_csharp_ext.c:536-554 | The corrected builder. The send-status op carries the status code and no trailing metadata. The op and the context share the copy of the details, so destroying the context frees it. Apart from the callback and that copy, every field, the send message included, is null or zero. |
| `Batch.PrepareRecvMessage` | src/csharp/ext/grpc_csharp_ext.c:556-566 | One receive-message op. The context owns nothing yet. |
| `Batch.PrepareServerside` | src/csharp/ext/grpc_csharp_ext.c:568-585 | The ops are send initial metadata, with no entries, then receive close on server. No client-only op appears. The context holds the callback, and every other field, both send inputs included, is null or zero. |
| `Batch.PrepareServerRequestCall` | src/csharp/ext/grpc_csharp_ext.c:617-626 | A zeroed context holding the callback, handed to the engine's request-call. |
| `Batch.Prepare` | src/csharp/ext/grpc_csharp_ext.c:347-626 | Any builder call, as written or corrected, yields a batch with the callback, fresh identities only, and a live, unshared context footprint. Corrected, and for every builder except the status send, the context also owns everything handed to the engine. As written, the status send's batch does not. |
| `Batch.ClientShape` | src/csharp/ext/grpc_csharp_ext.c:347-506 | The four client builders' op lists are ordered and start and end the same way. A send-message op appears exactly when the request is a single message, and a receive-message op exactly when the response is. |
| `Dispatch.Submit` | src/csharp/ext/grpc_csharp_ext.c:384 | The corrected tail of every builder. It returns the engine's answer. An accepted batch leaves its context submitted. A refused batch destroys the context at once, so the heap is as before. |
| `Dispatch.SubmitAsWritten` | src/csharp/ext/grpc_csharp_ext.c:384 | As written: a refused batch leaves its context allocated and never submitted. |
| `Dispatch.SubmitAsWrittenLeaks` | src/csharp/ext/grpc_csharp_ext.c:384 | After a refusal as written, the context and everything it owns stay live, and its phase stays Created. |
| `Dispatch.SubmitAsWrittenKeepsGood` | src/csharp/ext/grpc_csharp_ext.c:384 | As written too, submitting any builder's batch keeps ownership consistent and the trace well ordered. So the leaks below do not break that invariant; they are visible only to the accounting of live allocations. |
| `Dispatch.SubmitRefusedLeavesNoTrace` | src/csharp/ext/grpc_csharp_ext.c:384 | After a refusal with the correction, the heap's live set is unchanged and the context is destroyed. |
| `Dispatch.InvokeCallbackCounts` | src/csharp/ext/grpc_csharp_ext.c:234 | Running a submitted context's callback adds exactly one invocation for that context and none for any other. Only that context's phase changes, to completed. |
| `Dispatch.Release` | src/csharp/ext/grpc_csharp_ext.c:235 | Destroying a completed context frees exactly its footprint and moves it to destroyed. This succeeds exactly when it still holds that footprint. |
| `Dispatch.NextWithCallback` | src/csharp/ext/grpc_csharp_ext.c:222-250 | It always returns the event type. An untagged event changes nothing. Any other tagged event calls the tag as a handler and destroys nothing. An op-complete event with a tag runs that context's callback with the op result, then destroys the context. |
| `Dispatch.DeliverableNeverCrashes` | src/csharp/ext/grpc_csharp_ext.c:229-240 | When ownership is consistent, the dispatcher returns normally exactly when the tag's kind fits the event and a tagged completion names a submitted context. |
| `Dispatch.SubmitKeepsGood` | src/csharp/ext/grpc_csharp_ext.c:384 | Submitting a freshly built batch keeps ownership consistent and the trace well ordered. |
| `Dispatch.NextWithCallbackKeepsGood` | src/csharp/ext/grpc_csharp_ext.c:229-235 | A dispatch that does not crash keeps ownership consistent, each callback run at most once and only for a now-destroyed context, and each destruction right after its callback. |
| `Dispatch.Apply` | src/csharp/ext/grpc_csharp_ext.c:222-250 | One step is one builder call with its submission, or one dispatch. A step that returns keeps every earlier action of the trace and never reuses an allocation identity. A builder step records its submission, with the engine's answer, as its next action. |
| `Dispatch.Run` | src/csharp/ext/grpc_csharp_ext.c:222-250 | Steps run in order and a run stops at the first crash. A run that returns keeps every earlier action of the trace and never reuses an allocation identity. |
| `Dispatch.RunKeepsGood` | src/csharp/ext/grpc_csharp_ext.c:222-250 | For the source as written and for the corrected one alike: over any sequence of builder calls and dispatches that does not crash, every context's callback runs at most once. It runs only for a context that is then destroyed, and every destruction immediately follows the callback or a refused submission. |
| `Dispatch.CorrectedRunLeaksNothing` | src/csharp/ext/grpc_csharp_ext.c:222-250 | With both corrections, at every point of a run that does not crash, every live allocation belongs to a submitted context, whose completion will free it. |
| `Dispatch.RefusedBatchLeaksAsWritten` | src/csharp/ext/grpc_csharp_ext.c:384 | As written, one refused client-streaming call on an empty system returns normally and leaves a live allocation that no submitted context owns. |
| `Dispatch.StatusCopyOutside` | src/csharp/ext/grpc_csharp_ext.c:546-549 | In any state whose ownership is consistent, the as-written status builder's copy of the details is live, outside the new context's footprint and outside every pending context's footprint. |
| `Dispatch.CompletionLeavesOrphan` | src/csharp/ext/grpc_csharp_ext.c:233-235 | Completing a submitted context returns normally, and a live allocation outside its footprint and outside every other submitted context's footprint is then owned by no submitted context. |
| `Dispatch.AcceptedThenOrphan` | src/csharp/ext/grpc_csharp_ext.c:229-235 | For any builder, as written or corrected: when the engine accepts the batch and then completes it, an allocation the builder made outside the new context and outside every pending one is left owned by no context. |
| `Dispatch.StatusDetailsLeakAsWritten` | src/csharp/ext/grpc_csharp_ext.c:546-549 | As written, from any state whose ownership is consistent, a status send that the engine accepts and then completes returns normally and leaves the details copy live with no context owning it. |
| `Dispatch.BlockingUnary` | src/csharp/ext/grpc_csharp_ext.c:388-402 | The blocking call, with the builder's tail as written, returns only if the engine accepted the batch, the first event was a completion and the event after shutdown was the queue's shutdown. |
| `Dispatch.BlockingUnaryCompletes` | src/csharp/ext/grpc_csharp_ext.c:388-402 | Under that protocol, from any state whose heap is valid, the call returns. It records the accepted submission of its context, then exactly one callback for its context, then that context's destruction, and it leaves the live heap as it found it. |
| `Dispatch.StartWriteFromCopiedBuffer` | src/csharp/ext/grpc_csharp_ext.c:337-345 | The legacy write returns exactly when the engine accepts it. It starts a write of the given bytes and frees its temporary copy, so the live heap is unchanged. |
| `ChannelArgs.Create` | src/csharp/ext/grpc_csharp_ext.c:272-282 | It yields `num_args` entries, each zero (null key, string type, null value), in two fresh allocations. |
| `ChannelArgs.SetString` | src/csharp/ext/grpc_csharp_ext.c:284-292 | A null array or an out-of-range index fails the assertion. Otherwise only entry `index` changes. It becomes a string entry holding fresh, distinct copies of the key and the value. |
| `ChannelArgs.CreateReleasable` | src/csharp/ext/grpc_csharp_ext.c:272-307 | A freshly created array can be destroyed at once, and that frees exactly the two allocations create made. |
| `ChannelArgs.SetNextKeepsReleasable` | src/csharp/ext/grpc_csharp_ext.c:284-307 | Setting the first unset entry always succeeds and keeps the array destroyable. What destroy would free grows by exactly the key and value copies, so filling the entries in order and then destroying restores the heap. |
| `ChannelArgs.EntriesReleaseCovers` | src/csharp/ext/grpc_csharp_ext.c:297-302 | The entries release exactly every key plus the value of every string-typed entry. |
| `ChannelArgs.Destroy` | src/csharp/ext/grpc_csharp_ext.c:294-307 | Null is a no-op. Otherwise it frees every key, the values of string entries only, then the array and the struct, and nothing else. It fails exactly when one of these is shared or already freed. |

## Left out

- Forwarding calls with no logic of their own are not modelled. These are init and shutdown; completion-queue create, shutdown and destroy; channel, secure-channel and call creation; cancel; call destroy; server create, start, shutdown and ports; and the timespec helpers.
- The accessors at src/csharp/ext/grpc_csharp_ext.c:176-197 are left out because they only read context fields.
- SSL credential construction (lines 630-689) is left out because it only passes arguments through to the TLS library.
- Log redirection (lines 693-709) is left out because it is a global function pointer and thread ids.
- The test-only entry points (lines 712-718) are left out.
- The engine itself is not modelled. The result of `grpc_call_start_batch` and `grpc_server_request_call`, and the events of `grpc_completion_queue_next`, are parameters. What the engine writes into a context's receive fields is not a step: the destroy and dispatch properties hold for any context contents.
- `grpc_event_finish` is not modelled because the event belongs to the engine.
- Thread concurrency on a completion queue is not modelled. Dispatch runs over one sequential stream of events.
- The keys and values inside metadata arrays are not released, as the source's own TODO at line 112 says. The model releases only the array storage.
- Byte buffers are modelled as their slices (`seq<seq<byte>>`) with one identity each. Slice reference counts and the buffer reader are not modelled.
- `size_t` arithmetic is unbounded in the model. The `offset + len` sum at line 167 cannot wrap for a message held in memory.
- The call-details deadline is not modelled: it is a value that destroy never frees. The status-details capacity is a plain field.
- A managed callback is one atomic step. Calls it makes back into the shim before it returns, such as starting the next batch, are not modelled. So "immediately after the callback" in the dispatch rows means right after the callback returns.
- `Context.RecvMessageToBuffer`: requires a received message. With none, the source hands a null buffer to the reader, which is undefined behaviour. It also requires `buffer_len` not to exceed the buffer the caller passes, which the source takes on trust.
- A null callback is not modelled for the builders: their callback parameter is always a function. The source never checks it, and the dispatcher at line 234 would call through null. A context with no callback that reaches the dispatcher is the `NullCallback` crash.
- Null status details are not modelled: `details` is a string. For null, `gpr_strdup` at line 549 returns null and the engine receives no details.
- `ChannelArgs.SetString`: takes the key and value as strings and so does not model a null key or value, for which `gpr_strdup` returns null.
- The integer and pointer entry types of the channel arguments exist in the datatype, but no modelled function sets them; only the engine's own channel-args code does.
- `ChannelArgs.SetNextKeepsReleasable` covers only an entry that is still unset. Setting an entry twice overwrites the earlier copies without freeing them, which leaks them, and no lemma covers that case.

## Findings

| source | as written | input that shows it | evidently intended | confidence | as-written member | corrected member |
|---|---|---|---|---|---|---|
| src/csharp/ext/grpc_csharp_ext.c:546-549 | The copy of the status details is stored only in the operation. The context's `status_details` field, which destroy frees, stays null. | Any call of `grpcsharp_call_send_status_from_server` with any details string: after the completion destroys the context, the copy is still allocated (`Dispatch.StatusDetailsLeakAsWritten` gives such a run). | Store the copy in the context's field and point the operation at it, so that destroying the context frees it. | medium, not executed (assumes the engine copies the details it is given) | `Batch.PrepareSendStatusFromServerAsWritten` | `Batch.PrepareSendStatusFromServer` |
| src/csharp/ext/grpc_csharp_ext.c:384 | Every builder returns the engine's error code directly. When `grpc_call_start_batch` refuses the batch, no completion will carry the context and no pointer to it is kept. | Any builder call for which the engine returns an error other than `GRPC_CALL_OK`: the context and its copied message stay allocated (`Dispatch.RefusedBatchLeaksAsWritten` gives such a run). | Destroy the context when the engine refuses the batch. | medium, not executed (the engine's contract is assumed to be that no event follows a refused batch) | `Dispatch.SubmitAsWrittenLeaks` | `Dispatch.SubmitRefusedLeavesNoTrace` |
