/**
  Submission of batches and the completion dispatcher
  (grpcsharp_completion_queue_next_with_callback), over a sequential stream
  of events. The engine is external: the result of grpc_call_start_batch and
  the events grpc_completion_queue_next delivers are parameters.

  The system state is the heap, one slot per context ever created (keyed by
  the context pointer, with its lifecycle phase), and the trace of what the
  shim made observable: submissions, callback invocations, destructions.
 */
module Dispatch {
  import opened Memory
  import opened Context
  import opened Batch

  /** grpc_completion_type: queue shutdown and operation complete, which the shim tests for, and any other kind by its code. */
  datatype CompletionType = QueueShutdown | OpComplete | OtherCompletion(code: int)

  /** grpc_op_error, the result an operation-complete event carries. */
  datatype OpResult = OpOk | OpError

  /** A legacy completion handler: a function pointer passed as the tag itself. */
  type RawCallback = nat

  /**
    The tag of an event. The source keeps one untyped pointer and decides
    how to read it from the event type; here the two readings are variants.
   */
  datatype Tag = NoTag | BatchTag(ctx: Handle) | RawTag(fn: RawCallback)

  datatype Event = Event(kind: CompletionType, tag: Tag, result: OpResult)

  /** grpc_call_error, as returned by the engine when a batch is submitted. */
  datatype CallError = CallOk | CallFailed(code: int)

  datatype Phase = Created | Submitted | Completed | Destroyed

  datatype Slot = Slot(ctx: BatchContext, phase: Phase)

  datatype Action =
    | Started(ctx: Handle, request: Request, error: CallError)
    | CallbackInvoked(callback: Callback, result: OpResult, ctx: Handle)
    | RawCallbackInvoked(fn: RawCallback, kind: CompletionType)
    | ContextDestroyed(ctx: Handle)
    | LegacyWriteStarted(fn: RawCallback, bytes: seq<byte>)

  datatype System = System(heap: Heap, slots: map<Handle, Slot>, trace: seq<Action>)

  /** Ways the process dies: undefined behaviour made explicit, or a failed GPR_ASSERT. */
  datatype Fault =
    | MisTagged
    | DanglingTag
    | NullCallback
    | ContextDoubleFree(handle: Handle)
    | AssertionFailed

  datatype Outcome<T> = Ok(sys: System, value: T) | Crashed(fault: Fault)

  /** A context that is still waiting for its destruction. */
  predicate Pending(ph: Phase) {
    ph == Created || ph == Submitted
  }

  /** `p` was prepared by a builder from heap `h`. */
  predicate Ready(h: Heap, p: Prepared) {
    p.ctx.callback.Some? && WellPrepared(h, p.ctx.callback.value, p)
  }

  /**
    Ownership at rest: the heap is valid, every context identity was handed
    out, every pending context holds its whole footprint and has a callback,
    the footprints of two pending contexts never overlap, and no context is
    left half-way between its callback and its destruction.
   */
  ghost predicate Inv(sys: System) {
    && Valid(sys.heap)
    && (forall c :: c in sys.slots ==> c < sys.heap.next)
    && (forall c :: c in sys.slots && Pending(sys.slots[c].phase) ==>
          Holds(sys.heap, c, sys.slots[c].ctx) && sys.slots[c].ctx.callback.Some?)
    && (forall c, d :: c in sys.slots && d in sys.slots && c != d
                       && Pending(sys.slots[c].phase) && Pending(sys.slots[d].phase) ==>
          Footprint(c, sys.slots[c].ctx) !! Footprint(d, sys.slots[d].ctx))
    && (forall c :: c in sys.slots ==> sys.slots[c].phase != Completed)
  }

  /** How many times the callback of context `c` appears in a trace. */
  function Invocations(t: seq<Action>, c: Handle): nat {
    if |t| == 0 then 0
    else Invocations(t[..|t| - 1], c)
         + (if t[|t| - 1].CallbackInvoked? && t[|t| - 1].ctx == c then 1 else 0)
  }

  lemma {:induction false} InvocationsAppend(t: seq<Action>, u: seq<Action>, c: Handle)
    ensures Invocations(t + u, c) == Invocations(t, c) + Invocations(u, c)
    decreases |u|
  {
    if |u| == 0 {
      assert t + u == t;
    } else {
      var u' := u[..|u| - 1];
      assert (t + u)[..|t + u| - 1] == t + u';
      InvocationsAppend(t, u', c);
    }
  }

  /**
    The trace agrees with the phases: a callback ran at most once per
    context, and only for contexts that are now destroyed.
   */
  ghost predicate Accounted(sys: System) {
    forall c :: Invocations(sys.trace, c) <= 1
                && (Invocations(sys.trace, c) == 1 ==> c in sys.slots && sys.slots[c].phase == Destroyed)
  }

  /**
    Every destruction in the trace comes right after the callback of the
    same context, or right after the failed submission of that context.
   */
  ghost predicate DestroyedAfterCallback(t: seq<Action>) {
    forall i :: 0 <= i < |t| && t[i].ContextDestroyed? ==>
      && 0 < i
      && ((t[i - 1].CallbackInvoked? && t[i - 1].ctx == t[i].ctx)
          || (t[i - 1].Started? && t[i - 1].ctx == t[i].ctx && t[i - 1].error != CallOk))
  }

  ghost predicate Good(sys: System) {
    Inv(sys) && Accounted(sys) && DestroyedAfterCallback(sys.trace)
  }

  /** Nothing allocated, nothing submitted. */
  function Initial(): (sys: System)
    ensures Good(sys)
  {
    System(Heap({}, 0), map[], [])
  }

  /**
    The tail of every builder: `return grpc_call_start_batch(...)` (or
    grpc_server_request_call), with the engine's answer as a parameter. On
    success the context is submitted; on failure no completion will ever
    come, so the context is destroyed at once.
   */
  function Submit(sys: System, p: Prepared, engine: CallError): (r: Outcome<CallError>)
    ensures r.Ok? ==> r.value == engine && r.sys.heap.next == p.heap.next
    ensures r.Ok? && engine == CallOk ==>
              && r.sys.slots == sys.slots[p.tag := Slot(p.ctx, Submitted)]
              && r.sys.heap == p.heap
              && r.sys.trace == sys.trace + [Started(p.tag, p.request, engine)]
    ensures r.Ok? && engine != CallOk ==>
              && r.sys.slots == sys.slots[p.tag := Slot(p.ctx, Destroyed)]
              && r.sys.heap.live == p.heap.live - Footprint(p.tag, p.ctx)
              && r.sys.trace == sys.trace + [Started(p.tag, p.request, engine), ContextDestroyed(p.tag)]
    ensures Ready(sys.heap, p) ==> r.Ok?
    ensures Ready(sys.heap, p) && Valid(sys.heap) && engine != CallOk ==> r.sys.heap.live == sys.heap.live
  {
    var started := sys.(heap := p.heap, trace := sys.trace + [Started(p.tag, p.request, engine)]);
    if engine == CallOk then
      Ok(started.(slots := sys.slots[p.tag := Slot(p.ctx, Submitted)]), engine)
    else
      match Destroy(p.heap, Some((p.tag, p.ctx)))
      case DoubleFree(a) => Crashed(ContextDoubleFree(a))
      case Freed(h) =>
        Ok(started.(heap := h,
                    slots := sys.slots[p.tag := Slot(p.ctx, Destroyed)],
                    trace := started.trace + [ContextDestroyed(p.tag)]),
           engine)
  }

  /**
    The tail of every builder as written: when the engine refuses the batch
    the context is neither submitted nor destroyed, and no pointer to it is
    kept, so it stays allocated for good.
   */
  function SubmitAsWritten(sys: System, p: Prepared, engine: CallError): (r: Outcome<CallError>)
    ensures r.Ok? && r.value == engine
    ensures engine == CallOk ==> r == Submit(sys, p, engine)
    ensures engine != CallOk ==>
              && r.sys.slots == sys.slots[p.tag := Slot(p.ctx, Created)]
              && r.sys.heap == p.heap
              && r.sys.trace == sys.trace + [Started(p.tag, p.request, engine)]
  {
    var started := sys.(heap := p.heap, trace := sys.trace + [Started(p.tag, p.request, engine)]);
    if engine == CallOk then Ok(started.(slots := sys.slots[p.tag := Slot(p.ctx, Submitted)]), engine)
    else Ok(started.(slots := sys.slots[p.tag := Slot(p.ctx, Created)]), engine)
  }

  /** A refused batch leaks its context: it stays live and can never reach Destroyed. */
  lemma SubmitAsWrittenLeaks(sys: System, p: Prepared, engine: CallError)
    requires Valid(sys.heap) && Ready(sys.heap, p)
    requires engine != CallOk
    ensures var r := SubmitAsWritten(sys, p, engine);
            && p.tag in r.sys.heap.live && p.tag !in sys.heap.live
            && r.sys.slots[p.tag].phase == Created
            && r.sys.heap.live == sys.heap.live + Footprint(p.tag, p.ctx)
  {
  }

  /** The corrected tail: a refused batch leaves the heap as it found it. */
  lemma SubmitRefusedLeavesNoTrace(sys: System, p: Prepared, engine: CallError)
    requires Valid(sys.heap) && Ready(sys.heap, p)
    requires engine != CallOk
    ensures Submit(sys, p, engine).Ok?
    ensures Submit(sys, p, engine).sys.heap.live == sys.heap.live
    ensures Submit(sys, p, engine).sys.slots[p.tag].phase == Destroyed
  {
  }

  /** The callback runs with the op-complete result and the context: Submitted to Completed. */
  function InvokeCallback(sys: System, c: Handle, cb: Callback, result: OpResult): (r: System)
    requires c in sys.slots && sys.slots[c].phase == Submitted
    ensures r.slots == sys.slots[c := Slot(sys.slots[c].ctx, Completed)]
    ensures r.trace == sys.trace + [CallbackInvoked(cb, result, c)]
    ensures r.heap == sys.heap
  {
    sys.(slots := sys.slots[c := sys.slots[c].(phase := Completed)],
         trace := sys.trace + [CallbackInvoked(cb, result, c)])
  }

  /**
    Running the callback counts once for its own context and for no other,
    and only the context's phase changes.
   */
  lemma InvokeCallbackCounts(sys: System, c: Handle, cb: Callback, result: OpResult)
    requires c in sys.slots && sys.slots[c].phase == Submitted
    ensures var r := InvokeCallback(sys, c, cb, result);
            && Invocations(r.trace, c) == Invocations(sys.trace, c) + 1
            && (forall d :: d != c ==> Invocations(r.trace, d) == Invocations(sys.trace, d))
            && r.slots.Keys == sys.slots.Keys && r.slots[c].phase == Completed
            && (forall d :: d in sys.slots && d != c ==> r.slots[d] == sys.slots[d])
  {
    assert (sys.trace + [CallbackInvoked(cb, result, c)])[..|sys.trace|] == sys.trace;
  }

  /** grpcsharp_batch_context_destroy once the callback returned: Completed to Destroyed. */
  function Release(sys: System, c: Handle): (r: Outcome<()>)
    requires c in sys.slots && sys.slots[c].phase == Completed
    ensures r.Ok? <==> Holds(sys.heap, c, sys.slots[c].ctx)
    ensures r.Ok? ==>
              && r.sys.slots == sys.slots[c := Slot(sys.slots[c].ctx, Destroyed)]
              && r.sys.heap == Heap(sys.heap.live - Footprint(c, sys.slots[c].ctx), sys.heap.next)
              && r.sys.trace == sys.trace + [ContextDestroyed(c)]
  {
    match Destroy(sys.heap, Some((c, sys.slots[c].ctx)))
    case DoubleFree(a) => Crashed(ContextDoubleFree(a))
    case Freed(h) =>
      Ok(sys.(heap := h,
              slots := sys.slots[c := sys.slots[c].(phase := Destroyed)],
              trace := sys.trace + [ContextDestroyed(c)]),
         ())
  }

  /**
    grpcsharp_completion_queue_next_with_callback, given the event the engine
    delivered. It branches on the event type and on whether there is a tag:
    an operation-complete event with a tag runs the context's callback and
    then destroys the context; any other event with a tag calls the tag as a
    legacy handler; an event without a tag runs nothing. It returns the
    event type. A tag of the other kind than the branch expects is undefined
    behaviour in the source and a crash here. A completion for a context
    that is not submitted is a crash too: for a destroyed context it is a
    use after free, and for a context whose batch the engine refused it is
    an event the engine promises never to deliver.
   */
  function NextWithCallback(sys: System, ev: Event): (r: Outcome<CompletionType>)
    ensures r.Ok? ==> r.value == ev.kind
    ensures ev.tag.NoTag? ==> r == Ok(sys, ev.kind)
    ensures ev.kind != OpComplete && ev.tag.RawTag? ==>
              r == Ok(sys.(trace := sys.trace + [RawCallbackInvoked(ev.tag.fn, ev.kind)]), ev.kind)
    ensures ev.kind != OpComplete && ev.tag.BatchTag? ==> r == Crashed(MisTagged)
    ensures ev.kind == OpComplete && ev.tag.RawTag? ==> r == Crashed(MisTagged)
    ensures ev.kind == OpComplete && ev.tag.BatchTag? && r.Ok? ==>
              var c := ev.tag.ctx;
              && c in sys.slots && sys.slots[c].phase == Submitted
              && sys.slots[c].ctx.callback.Some?
              && r.sys.trace == sys.trace + [CallbackInvoked(sys.slots[c].ctx.callback.value, ev.result, c),
                                             ContextDestroyed(c)]
              && r.sys.slots == sys.slots[c := Slot(sys.slots[c].ctx, Destroyed)]
              && r.sys.heap == Heap(sys.heap.live - Footprint(c, sys.slots[c].ctx), sys.heap.next)
  {
    if ev.kind == OpComplete && !ev.tag.NoTag? then
      match ev.tag
      case RawTag(_) => Crashed(MisTagged)
      case BatchTag(c) =>
        if c !in sys.slots || sys.slots[c].phase != Submitted then Crashed(DanglingTag)
        else match sys.slots[c].ctx.callback
          case None => Crashed(NullCallback)
          case Some(cb) =>
            var invoked := InvokeCallback(sys, c, cb, ev.result);
            match Release(invoked, c)
            case Crashed(f) => Crashed(f)
            case Ok(released, _) => Ok(released, ev.kind)
    else if !ev.tag.NoTag? then
      match ev.tag
      case BatchTag(_) => Crashed(MisTagged)
      case RawTag(fn) => Ok(sys.(trace := sys.trace + [RawCallbackInvoked(fn, ev.kind)]), ev.kind)
    else
      Ok(sys, ev.kind)
  }

  /**
    An event whose tag matches the reading the dispatcher gives it, and that
    completes a context waiting for it (in the state it is delivered in).
   */
  predicate Deliverable(sys: System, ev: Event) {
    match ev.tag
    case NoTag => true
    case RawTag(_) => ev.kind != OpComplete
    case BatchTag(c) => ev.kind == OpComplete && c in sys.slots && sys.slots[c].phase == Submitted
  }

  /** Under the ownership invariant the dispatcher never crashes on a deliverable event. */
  lemma DeliverableNeverCrashes(sys: System, ev: Event)
    requires Inv(sys)
    ensures NextWithCallback(sys, ev).Ok? <==> Deliverable(sys, ev)
  {
  }

  /** Appending a well-ordered trace to a well-ordered trace keeps it well ordered. */
  lemma DestroyedAfterAppend(t: seq<Action>, u: seq<Action>)
    requires DestroyedAfterCallback(t) && DestroyedAfterCallback(u)
    ensures DestroyedAfterCallback(t + u)
  {
    var tu := t + u;
    forall i | 0 <= i < |tu| && tu[i].ContextDestroyed?
      ensures 0 < i
      ensures (tu[i - 1].CallbackInvoked? && tu[i - 1].ctx == tu[i].ctx)
              || (tu[i - 1].Started? && tu[i - 1].ctx == tu[i].ctx && tu[i - 1].error != CallOk)
    {
      if i < |t| {
        assert tu[i] == t[i] && tu[i - 1] == t[i - 1];
      } else {
        assert tu[i] == u[i - |t|];
        assert i - |t| > 0;
        assert tu[i - 1] == u[i - 1 - |t|];
      }
    }
  }

  /** Appending actions that invoke no batch callback leaves every count as it was. */
  lemma InvocationsUnchanged(t: seq<Action>, u: seq<Action>)
    requires forall i :: 0 <= i < |u| ==> !u[i].CallbackInvoked?
    ensures forall c :: Invocations(t + u, c) == Invocations(t, c)
  {
    forall c ensures Invocations(t + u, c) == Invocations(t, c) {
      InvocationsAppend(t, u, c);
      NoInvocations(u, c);
    }
  }

  lemma {:induction false} NoInvocations(u: seq<Action>, c: Handle)
    requires forall i :: 0 <= i < |u| ==> !u[i].CallbackInvoked?
    ensures Invocations(u, c) == 0
    decreases |u|
  {
    if |u| > 0 {
      NoInvocations(u[..|u| - 1], c);
    }
  }

  /** A new context, with a footprint beyond everything allocated so far, keeps the invariant. */
  lemma InvAfterSubmit(sys: System, p: Prepared, r: System, ph: Phase)
    requires Inv(sys) && Ready(sys.heap, p)
    requires ph == Submitted || ph == Destroyed
    requires r.slots == sys.slots[p.tag := Slot(p.ctx, ph)]
    requires ph == Submitted ==> r.heap == p.heap
    requires ph == Destroyed ==> r.heap == Heap(p.heap.live - Footprint(p.tag, p.ctx), p.heap.next)
    ensures Inv(r)
  {
    var f := Footprint(p.tag, p.ctx);
    assert p.tag in f;
    forall c | c in sys.slots && Pending(sys.slots[c].phase)
      ensures Footprint(c, sys.slots[c].ctx) !! f
    {
      forall a | a in Footprint(c, sys.slots[c].ctx) ensures a < sys.heap.next {}
    }
  }

  lemma {:induction false} SubmitKeepsGood(sys: System, p: Prepared, engine: CallError)
    requires Good(sys) && Ready(sys.heap, p)
    ensures Good(Submit(sys, p, engine).sys)
  {
    var r := Submit(sys, p, engine).sys;
    var t := p.tag;
    assert t in Footprint(t, p.ctx);
    assert t !in sys.slots;
    var u := r.trace[|sys.trace|..];
    assert r.trace == sys.trace + u;
    if engine == CallOk {
      InvAfterSubmit(sys, p, r, Submitted);
      assert u == [Started(t, p.request, engine)];
    } else {
      InvAfterSubmit(sys, p, r, Destroyed);
      assert u == [Started(t, p.request, engine), ContextDestroyed(t)];
    }
    InvocationsUnchanged(sys.trace, u);
    assert Invocations(sys.trace, t) == 0;
    DestroyedAfterAppend(sys.trace, u);
  }

  /** The heap half of `InvAfterBuilt`: the new handles are below the new counter. */
  lemma BuiltHeapValid(sys: System, p: Prepared, r: System, ph: Phase)
    requires Inv(sys) && p.ctx.callback.Some? && Built(sys.heap, p.ctx.callback.value, p)
    requires r.slots == sys.slots[p.tag := Slot(p.ctx, ph)] && r.heap == p.heap
    ensures Valid(r.heap) && (forall c :: c in r.slots ==> c < r.heap.next)
  {
    assert p.tag in Footprint(p.tag, p.ctx);
    forall a | a in r.heap.live ensures a < r.heap.next {
      if a in sys.heap.live {}
    }
  }

  /** The new footprint is disjoint from that of every pending context before it. */
  lemma BuiltFootprintFresh(sys: System, p: Prepared)
    requires Inv(sys) && p.ctx.callback.Some? && Built(sys.heap, p.ctx.callback.value, p)
    ensures forall c :: c in sys.slots && Pending(sys.slots[c].phase) ==>
              Footprint(c, sys.slots[c].ctx) !! Footprint(p.tag, p.ctx)
  {
    forall c | c in sys.slots && Pending(sys.slots[c].phase)
      ensures Footprint(c, sys.slots[c].ctx) !! Footprint(p.tag, p.ctx)
    {
      forall a | a in Footprint(c, sys.slots[c].ctx) ensures a < sys.heap.next {}
    }
  }

  /** Pending contexts, the new one among them, still own disjoint footprints. */
  lemma BuiltDisjoint(sys: System, p: Prepared, r: System, ph: Phase)
    requires Inv(sys) && p.ctx.callback.Some? && Built(sys.heap, p.ctx.callback.value, p)
    requires r.slots == sys.slots[p.tag := Slot(p.ctx, ph)]
    ensures forall c, d :: c in r.slots && d in r.slots && c != d
                           && Pending(r.slots[c].phase) && Pending(r.slots[d].phase) ==>
              Footprint(c, r.slots[c].ctx) !! Footprint(d, r.slots[d].ctx)
  {
    BuiltFootprintFresh(sys, p);
  }

  /** Every pending context, the new one among them, is held in the new heap. */
  lemma BuiltHolds(sys: System, p: Prepared, r: System, ph: Phase)
    requires Inv(sys) && p.ctx.callback.Some? && Built(sys.heap, p.ctx.callback.value, p)
    requires r.slots == sys.slots[p.tag := Slot(p.ctx, ph)] && r.heap == p.heap
    ensures forall c :: c in r.slots && Pending(r.slots[c].phase) ==>
              Holds(r.heap, c, r.slots[c].ctx) && r.slots[c].ctx.callback.Some?
  {
  }

  /** A new context that a builder made, added in a pending phase, keeps the invariant. */
  lemma InvAfterBuilt(sys: System, p: Prepared, r: System, ph: Phase)
    requires Inv(sys) && p.ctx.callback.Some? && Built(sys.heap, p.ctx.callback.value, p)
    requires Pending(ph)
    requires r.slots == sys.slots[p.tag := Slot(p.ctx, ph)] && r.heap == p.heap
    ensures Inv(r)
  {
    BuiltHeapValid(sys, p, r, ph);
    BuiltHolds(sys, p, r, ph);
    BuiltDisjoint(sys, p, r, ph);
  }

  /**
    The builders and the submission as written keep the same invariant: a
    refused context stays Created, holding its footprint, and a copy left
    outside every context is simply live. The invariant does not see leaks;
    `Accountable` does.
   */
  lemma SubmitAsWrittenKeepsGood(sys: System, p: Prepared, engine: CallError)
    requires Good(sys) && p.ctx.callback.Some? && Built(sys.heap, p.ctx.callback.value, p)
    ensures Good(SubmitAsWritten(sys, p, engine).sys)
  {
    var r := SubmitAsWritten(sys, p, engine).sys;
    var t := p.tag;
    var u := [Started(t, p.request, engine)];
    assert t !in sys.slots && r.trace == sys.trace + u
        && r.slots == sys.slots[t := Slot(p.ctx, if engine == CallOk then Submitted else Created)] by {
      assert t in Footprint(t, p.ctx);
    }
    assert Inv(r) by {
      InvAfterBuilt(sys, p, r, if engine == CallOk then Submitted else Created);
    }
    assert Accounted(r) by {
      InvocationsUnchanged(sys.trace, u);
      assert Invocations(sys.trace, t) == 0;
    }
    DestroyedAfterAppend(sys.trace, u);
  }

  /** Destroying one pending context leaves the others holding their footprints. */
  lemma InvAfterRelease(sys: System, c: Handle, r: System)
    requires Inv(sys)
    requires c in sys.slots && sys.slots[c].phase == Submitted
    requires r.slots == sys.slots[c := Slot(sys.slots[c].ctx, Destroyed)]
    requires r.heap == Heap(sys.heap.live - Footprint(c, sys.slots[c].ctx), sys.heap.next)
    ensures Inv(r)
  {
    forall d | d in r.slots && Pending(r.slots[d].phase)
      ensures Holds(r.heap, d, r.slots[d].ctx)
    {
      assert d != c;
      assert Footprint(d, sys.slots[d].ctx) !! Footprint(c, sys.slots[c].ctx);
    }
  }

  lemma AccountedAfterCompletion(sys: System, c: Handle, cb: Callback, res: OpResult, r: System)
    requires Accounted(sys)
    requires c in sys.slots && sys.slots[c].phase == Submitted
    requires r.slots == sys.slots[c := Slot(sys.slots[c].ctx, Destroyed)]
    requires r.trace == sys.trace + [CallbackInvoked(cb, res, c), ContextDestroyed(c)]
    ensures Accounted(r)
  {
    var u := [CallbackInvoked(cb, res, c), ContextDestroyed(c)];
    forall d ensures Invocations(r.trace, d) == Invocations(sys.trace, d) + (if d == c then 1 else 0) {
      InvocationsAppend(sys.trace, u, d);
      assert u[..1][..0] == [] && u[..1] == [CallbackInvoked(cb, res, c)];
      assert Invocations(u[..1], d) == (if d == c then 1 else 0);
      assert Invocations(u, d) == Invocations(u[..1], d);
    }
  }

  lemma {:induction false} NextWithCallbackKeepsGood(sys: System, ev: Event)
    requires Good(sys)
    requires NextWithCallback(sys, ev).Ok?
    ensures Good(NextWithCallback(sys, ev).sys)
  {
    var r := NextWithCallback(sys, ev).sys;
    if ev.kind == OpComplete && ev.tag.BatchTag? {
      var c := ev.tag.ctx;
      var cb := sys.slots[c].ctx.callback.value;
      var u := [CallbackInvoked(cb, ev.result, c), ContextDestroyed(c)];
      InvAfterRelease(sys, c, r);
      AccountedAfterCompletion(sys, c, cb, ev.result, r);
      DestroyedAfterAppend(sys.trace, u);
    } else if !ev.tag.NoTag? {
      var u := [RawCallbackInvoked(ev.tag.fn, ev.kind)];
      InvocationsUnchanged(sys.trace, u);
      DestroyedAfterAppend(sys.trace, u);
    }
  }

  /** One call from the managed side: a builder with the engine's answer, or one dispatch. */
  datatype Step = Start(builder: ValidBuilder, engine: CallError) | Deliver(ev: Event)

  /** A builder call followed by the submission of its batch, as written or corrected. */
  function StartStep(v: Version, sys: System, b: ValidBuilder, engine: CallError): (r: Outcome<()>)
    ensures r.Ok? ==> |sys.trace| < |r.sys.trace| && r.sys.trace[..|sys.trace|] == sys.trace
    ensures r.Ok? ==> sys.heap.next < r.sys.heap.next
    ensures r.Ok? ==> r.sys.trace[|sys.trace|].Started? && r.sys.trace[|sys.trace|].error == engine
  {
    var p := Prepare(sys.heap, b, v);
    assert p.tag in Footprint(p.tag, p.ctx);
    match (if v == AsWritten then SubmitAsWritten(sys, p, engine) else Submit(sys, p, engine))
    case Crashed(f) => Crashed(f)
    case Ok(s, _) => Ok(s, ())
  }

  /** One dispatch, with its result dropped. */
  function DeliverStep(sys: System, ev: Event): (r: Outcome<()>)
    ensures r.Ok? ==> |sys.trace| <= |r.sys.trace| && r.sys.trace[..|sys.trace|] == sys.trace
    ensures r.Ok? ==> r.sys.heap.next == sys.heap.next
  {
    match NextWithCallback(sys, ev)
    case Crashed(f) => Crashed(f)
    case Ok(s, _) => Ok(s, ())
  }

  /**
    One step: a builder followed by the submission of its batch, or one
    dispatch. The trace only grows, allocation identities only advance, and a
    builder step always starts by recording its submission.
   */
  function Apply(v: Version, sys: System, step: Step): (r: Outcome<()>)
    ensures r.Ok? ==> |sys.trace| <= |r.sys.trace| && r.sys.trace[..|sys.trace|] == sys.trace
    ensures r.Ok? ==> sys.heap.next <= r.sys.heap.next
    ensures r.Ok? && step.Start? ==>
              && sys.heap.next < r.sys.heap.next
              && |sys.trace| < |r.sys.trace| && r.sys.trace[|sys.trace|].Started?
              && r.sys.trace[|sys.trace|].error == step.engine
  {
    match step
    case Start(b, engine) => StartStep(v, sys, b, engine)
    case Deliver(ev) => DeliverStep(sys, ev)
  }

  /**
    Runs the steps in order and stops at the first crash. A run that returns
    keeps every earlier action of the trace and never reuses an allocation
    identity.
   */
  function Run(v: Version, sys: System, steps: seq<Step>): (r: Outcome<()>)
    ensures r.Ok? ==> |sys.trace| <= |r.sys.trace| && r.sys.trace[..|sys.trace|] == sys.trace
    ensures r.Ok? ==> sys.heap.next <= r.sys.heap.next
    decreases |steps|
  {
    if |steps| == 0 then Ok(sys, ())
    else
      match Apply(v, sys, steps[0])
      case Crashed(f) => Crashed(f)
      case Ok(s, _) => Run(v, s, steps[1..])
  }

  lemma ApplyKeepsGood(v: Version, sys: System, step: Step)
    requires Good(sys)
    requires Apply(v, sys, step).Ok?
    ensures Good(Apply(v, sys, step).sys)
  {
    match step
    case Start(b, engine) =>
      var p := Prepare(sys.heap, b, v);
      if v == AsWritten {
        SubmitAsWrittenKeepsGood(sys, p, engine);
      } else {
        SubmitKeepsGood(sys, p, engine);
      }
    case Deliver(ev) => NextWithCallbackKeepsGood(sys, ev);
  }

  /**
    Whatever the managed side submits and whatever the engine delivers, as
    long as nothing crashes, and for the source as written as much as for
    the corrected one: every callback runs at most once, only for a context
    that is then destroyed, every destruction follows its callback (or a
    refused submission), and ownership stays consistent.
   */
  lemma {:induction false} RunKeepsGood(v: Version, sys: System, steps: seq<Step>)
    requires Good(sys)
    requires Run(v, sys, steps).Ok?
    ensures Good(Run(v, sys, steps).sys)
    decreases |steps|
  {
    if |steps| > 0 {
      ApplyKeepsGood(v, sys, steps[0]);
      RunKeepsGood(v, Apply(v, sys, steps[0]).sys, steps[1..]);
    }
  }

  /**
    Nothing leaks: every live allocation belongs to a submitted context, so
    the completion the engine owes that context will free it.
   */
  ghost predicate Accountable(sys: System) {
    forall a :: a in sys.heap.live ==>
      exists c :: c in sys.slots && sys.slots[c].phase == Submitted && a in Footprint(c, sys.slots[c].ctx)
  }

  /** Adding one slot keeps every allocation accounted for, if the new ones belong to it and it is submitted. */
  lemma AccountableAfterAdd(sys: System, r: System, t: Handle, slot: Slot)
    requires Accountable(sys)
    requires t !in sys.slots
    requires r.slots == sys.slots[t := slot]
    requires slot.phase == Submitted ==> r.heap.live <= sys.heap.live + Footprint(t, slot.ctx)
    requires slot.phase != Submitted ==> r.heap.live <= sys.heap.live
    ensures Accountable(r)
  {
    forall a | a in r.heap.live
      ensures exists c :: c in r.slots && r.slots[c].phase == Submitted && a in Footprint(c, r.slots[c].ctx)
    {
      if a in sys.heap.live {
        var c :| c in sys.slots && sys.slots[c].phase == Submitted && a in Footprint(c, sys.slots[c].ctx);
        assert r.slots[c] == sys.slots[c];
      } else {
        assert r.slots[t] == slot;
      }
    }
  }

  lemma SubmitKeepsAccountable(sys: System, p: Prepared, engine: CallError)
    requires Good(sys) && Accountable(sys) && Ready(sys.heap, p)
    ensures Accountable(Submit(sys, p, engine).sys)
  {
    var r := Submit(sys, p, engine).sys;
    var t := p.tag;
    assert t in Footprint(t, p.ctx);
    assert t !in sys.slots;
    AccountableAfterAdd(sys, r, t, Slot(p.ctx, if engine == CallOk then Submitted else Destroyed));
  }

  lemma NextWithCallbackKeepsAccountable(sys: System, ev: Event)
    requires Accountable(sys)
    requires NextWithCallback(sys, ev).Ok?
    ensures Accountable(NextWithCallback(sys, ev).sys)
  {
    var r := NextWithCallback(sys, ev).sys;
    if ev.kind == OpComplete && ev.tag.BatchTag? {
      var d := ev.tag.ctx;
      forall a | a in r.heap.live
        ensures exists c :: c in r.slots && r.slots[c].phase == Submitted && a in Footprint(c, r.slots[c].ctx)
      {
        var c :| c in sys.slots && sys.slots[c].phase == Submitted && a in Footprint(c, sys.slots[c].ctx);
        assert c != d && r.slots[c] == sys.slots[c];
      }
    }
  }

  lemma ApplyKeepsAccountable(sys: System, step: Step)
    requires Good(sys) && Accountable(sys)
    requires Apply(Corrected, sys, step).Ok?
    ensures Accountable(Apply(Corrected, sys, step).sys)
  {
    match step
    case Start(b, engine) => SubmitKeepsAccountable(sys, Prepare(sys.heap, b, Corrected), engine);
    case Deliver(ev) => NextWithCallbackKeepsAccountable(sys, ev);
  }

  /**
    With the two corrections, a run that does not crash leaks nothing: at
    every point, everything allocated is owned by a context whose completion
    is still to come.
   */
  lemma {:induction false} CorrectedRunLeaksNothing(sys: System, steps: seq<Step>)
    requires Good(sys) && Accountable(sys)
    requires Run(Corrected, sys, steps).Ok?
    ensures Accountable(Run(Corrected, sys, steps).sys)
    decreases |steps|
  {
    if |steps| > 0 {
      ApplyKeepsGood(Corrected, sys, steps[0]);
      ApplyKeepsAccountable(sys, steps[0]);
      CorrectedRunLeaksNothing(Apply(Corrected, sys, steps[0]).sys, steps[1..]);
    }
  }

  /** As written, one refused batch is enough to leak its context. */
  lemma RefusedBatchLeaksAsWritten()
    ensures var steps := [Start(ClientStreaming(0), CallFailed(1))];
            && Run(AsWritten, Initial(), steps).Ok?
            && !Accountable(Run(AsWritten, Initial(), steps).sys)
  {
    var steps := [Start(ClientStreaming(0), CallFailed(1))];
    var p := Prepare(Initial().heap, ClientStreaming(0), AsWritten);
    var r := Run(AsWritten, Initial(), steps);
    assert Apply(AsWritten, Initial(), steps[0]) == Ok(SubmitAsWritten(Initial(), p, CallFailed(1)).sys, ());
    assert r == Run(AsWritten, SubmitAsWritten(Initial(), p, CallFailed(1)).sys, steps[1..]);
    assert r.sys.slots == map[p.tag := Slot(p.ctx, Created)];
    assert p.tag in r.sys.heap.live by {
      assert p.tag in Footprint(p.tag, p.ctx);
    }
  }

  /** A status-send step runs the as-written builder when the version is as written. */
  lemma StatusCallAsWritten(h: Heap, b: ValidBuilder)
    requires b.SendStatusFromServerCall?
    ensures Prepare(h, b, AsWritten) == PrepareSendStatusFromServerAsWritten(h, b.cb, b.status, b.details)
  {
    assert Prepare(h, b, AsWritten) == Call(h, b, AsWritten);
  }

  /** What the as-written status builder leaves behind: a live copy outside the new context and outside every old one. */
  lemma StatusCopyOutside(sys: System, cb: Callback, status: int, details: string)
    requires Inv(sys)
    ensures var p := PrepareSendStatusFromServerAsWritten(sys.heap, cb, status, details);
            var d := p.request.ops[0].payload.details.value.id;
            && p.tag !in sys.slots
            && d in p.heap.live && d !in Footprint(p.tag, p.ctx)
            && Holds(p.heap, p.tag, p.ctx) && p.ctx.callback.Some?
            && (forall c :: c in sys.slots && Pending(sys.slots[c].phase) ==> d !in Footprint(c, sys.slots[c].ctx))
  {
    var p := PrepareSendStatusFromServerAsWritten(sys.heap, cb, status, details);
    var d := p.request.ops[0].payload.details.value.id;
    assert sys.heap.next <= d && sys.heap.next <= p.tag by {
      assert p.tag in Footprint(p.tag, p.ctx);
    }
    forall c | c in sys.slots && Pending(sys.slots[c].phase)
      ensures d !in Footprint(c, sys.slots[c].ctx)
    {
      assert Holds(sys.heap, c, sys.slots[c].ctx);
    }
  }

  /** A run that does not crash at its first step goes on from that step's state. */
  lemma RunCons(v: Version, sys: System, steps: seq<Step>)
    requires |steps| > 0
    requires Apply(v, sys, steps[0]).Ok?
    ensures Run(v, sys, steps) == Run(v, Apply(v, sys, steps[0]).sys, steps[1..])
  {
  }

  /** A run of one dispatch that completes a submitted context destroys exactly that context. */
  lemma RunCompletion(v: Version, sys: System, t: Handle, ctx: BatchContext, result: OpResult)
    requires t in sys.slots && sys.slots[t] == Slot(ctx, Submitted)
    requires ctx.callback.Some? && Holds(sys.heap, t, ctx)
    ensures var r := Run(v, sys, [Deliver(Event(OpComplete, BatchTag(t), result))]);
            && r.Ok?
            && r.sys.heap.live == sys.heap.live - Footprint(t, ctx)
            && r.sys.slots == sys.slots[t := Slot(ctx, Destroyed)]
  {
    var steps := [Deliver(Event(OpComplete, BatchTag(t), result))];
    assert NextWithCallback(sys, steps[0].ev).Ok?;
    RunCons(v, sys, steps);
    assert steps[1..] == [];
  }

  /** A builder step the engine accepts leaves the new context submitted, and the run goes on from there. */
  lemma RunAccepted(v: Version, sys: System, b: ValidBuilder, rest: seq<Step>)
        ensures var p := Prepare(sys.heap, b, v);
            var s1 := Submit(sys, p, CallOk);
            && s1.Ok?
            && s1.sys.slots == sys.slots[p.tag := Slot(p.ctx, Submitted)] && s1.sys.heap == p.heap
            && Holds(p.heap, p.tag, p.ctx) && p.ctx.callback.Some?
            && Run(v, sys, [Start(b, CallOk)] + rest) == Run(v, s1.sys, rest)
  {
    var p := Prepare(sys.heap, b, v);
    var steps := [Start(b, CallOk)] + rest;
    assert p.tag in Footprint(p.tag, p.ctx);
    assert Apply(v, sys, steps[0]) == Ok(Submit(sys, p, CallOk).sys, ());
    RunCons(v, sys, steps);
    assert steps[1..] == rest;
  }

  /** The event that completes, successfully, the batch that builder `b` makes on heap `h`. */
  function BatchCompletion(h: Heap, b: ValidBuilder, v: Version): Event
  {
    Event(OpComplete, BatchTag(Prepare(h, b, v).tag), OpOk)
  }

  /**
    Completing a submitted context leaves behind any live allocation that is
    outside its footprint and outside the footprint of every other submitted
    context: afterwards nothing accounts for it.
   */
  lemma CompletionLeavesOrphan(v: Version, sys: System, t: Handle, ctx: BatchContext, result: OpResult, d: Handle)
    requires t in sys.slots && sys.slots[t] == Slot(ctx, Submitted)
    requires ctx.callback.Some? && Holds(sys.heap, t, ctx)
    requires d in sys.heap.live && d !in Footprint(t, ctx)
    requires forall c :: c in sys.slots && c != t && sys.slots[c].phase == Submitted ==>
               d !in Footprint(c, sys.slots[c].ctx)
    ensures var r := Run(v, sys, [Deliver(Event(OpComplete, BatchTag(t), result))]);
            r.Ok? && !Accountable(r.sys)
  {
    var r := Run(v, sys, [Deliver(Event(OpComplete, BatchTag(t), result))]);
    RunCompletion(v, sys, t, ctx, result);
    assert d in r.sys.heap.live;
    forall c | c in r.sys.slots && r.sys.slots[c].phase == Submitted
      ensures d !in Footprint(c, r.sys.slots[c].ctx)
    {
      assert c != t && r.sys.slots[c] == sys.slots[c];
    }
  }

  /** An allocation outside a new context and every pending one stays so once the engine accepts the batch. */
  lemma AcceptedKeepsOutside(v: Version, sys: System, b: ValidBuilder, d: Handle)
    requires var p := Prepare(sys.heap, b, v);
             && d in p.heap.live && d !in Footprint(p.tag, p.ctx)
             && (forall c :: c in sys.slots && Pending(sys.slots[c].phase) ==> d !in Footprint(c, sys.slots[c].ctx))
    ensures var p := Prepare(sys.heap, b, v);
            var s1 := Submit(sys, p, CallOk).sys;
            && p.tag in s1.slots && s1.slots[p.tag] == Slot(p.ctx, Submitted)
            && p.ctx.callback.Some? && Holds(s1.heap, p.tag, p.ctx)
            && d in s1.heap.live
            && (forall c :: c in s1.slots && c != p.tag && s1.slots[c].phase == Submitted ==>
                  d !in Footprint(c, s1.slots[c].ctx))
  {
    var p := Prepare(sys.heap, b, v);
    var s1 := Submit(sys, p, CallOk).sys;
    forall c | c in s1.slots && c != p.tag && s1.slots[c].phase == Submitted
      ensures d !in Footprint(c, s1.slots[c].ctx)
    {
      assert s1.slots[c] == sys.slots[c];
    }
  }

  /**
    A batch the engine accepts and then completes leaves behind any live
    allocation made outside the new context and outside every pending one.
   */
  lemma AcceptedThenOrphan(v: Version, sys: System, b: ValidBuilder, d: Handle)
    requires var p := Prepare(sys.heap, b, v);
             && d in p.heap.live && d !in Footprint(p.tag, p.ctx)
             && (forall c :: c in sys.slots && Pending(sys.slots[c].phase) ==> d !in Footprint(c, sys.slots[c].ctx))
    ensures var r := Run(v, sys, [Start(b, CallOk), Deliver(BatchCompletion(sys.heap, b, v))]);
            r.Ok? && !Accountable(r.sys)
  {
    var p := Prepare(sys.heap, b, v);
    var ev := BatchCompletion(sys.heap, b, v);
    AcceptedKeepsOutside(v, sys, b, d);
    RunAccepted(v, sys, b, [Deliver(ev)]);
    assert [Start(b, CallOk), Deliver(ev)] == [Start(b, CallOk)] + [Deliver(ev)];
    CompletionLeavesOrphan(v, Submit(sys, p, CallOk).sys, p.tag, p.ctx, OpOk, d);
  }

  /**
    As written, a server's status send leaks its copy of the details: once
    the batch completed and the context is destroyed, the copy is still live
    and belongs to no context.
   */
  lemma StatusDetailsLeakAsWritten(sys: System, cb: Callback, status: int, details: string)
    requires Inv(sys)
    ensures var b := SendStatusFromServerCall(cb, status, details);
            var r := Run(AsWritten, sys, [Start(b, CallOk), Deliver(BatchCompletion(sys.heap, b, AsWritten))]);
            r.Ok? && !Accountable(r.sys)
  {
    var b := SendStatusFromServerCall(cb, status, details);
    var p := PrepareSendStatusFromServerAsWritten(sys.heap, cb, status, details);
    StatusCallAsWritten(sys.heap, b);
    StatusCopyOutside(sys, cb, status, details);
    AcceptedThenOrphan(AsWritten, sys, b, p.request.ops[0].payload.details.value.id);
  }

  /**
    grpcsharp_call_blocking_unary: submit a unary batch (asserting that the
    engine accepted it), dispatch one event from the dedicated queue
    (asserting it is an operation completion), shut the queue down, and
    dispatch once more (asserting the queue reports its shutdown). The two
    events are what the dedicated queue delivers.
   */
  function BlockingUnary(sys: System, cb: Callback, sendBuffer: seq<byte>, sendBufferLen: nat,
                         engine: CallError, first: Event, afterShutdown: Event): (r: Outcome<()>)
    requires sendBufferLen <= |sendBuffer|
    ensures r.Ok? ==> engine == CallOk && first.kind == OpComplete && afterShutdown.kind == QueueShutdown
  {
    match SubmitAsWritten(sys, PrepareUnary(sys.heap, cb, sendBuffer, sendBufferLen), engine)
    case Crashed(f) => Crashed(f)
    case Ok(s1, err) =>
      if err != CallOk then Crashed(AssertionFailed)
      else match NextWithCallback(s1, first)
        case Crashed(f) => Crashed(f)
        case Ok(s2, t1) =>
          if t1 != OpComplete then Crashed(AssertionFailed)
          else match NextWithCallback(s2, afterShutdown)
            case Crashed(f) => Crashed(f)
            case Ok(s3, t2) => if t2 != QueueShutdown then Crashed(AssertionFailed) else Ok(s3, ())
  }

  /**
    When the engine accepts the batch, completes it on the dedicated queue,
    and then reports the shutdown, the blocking call returns having run the
    callback exactly once, destroyed the context right after, and left the
    heap as it found it.
   */
  lemma BlockingUnaryCompletes(sys: System, cb: Callback, sendBuffer: seq<byte>, sendBufferLen: nat,
                               result: OpResult)
    requires Valid(sys.heap)
    requires sendBufferLen <= |sendBuffer|
    ensures var tag := sys.heap.next;
            var r := BlockingUnary(sys, cb, sendBuffer, sendBufferLen, CallOk,
                                   Event(OpComplete, BatchTag(tag), result), Event(QueueShutdown, NoTag, OpOk));
            && r.Ok?
            && r.sys.heap.live == sys.heap.live
            && |r.sys.trace| == |sys.trace| + 3
            && r.sys.trace[..|sys.trace|] == sys.trace
            && r.sys.trace[|sys.trace|].Started?
            && r.sys.trace[|sys.trace|].ctx == tag && r.sys.trace[|sys.trace|].error == CallOk
            && r.sys.trace[|sys.trace| + 1] == CallbackInvoked(cb, result, tag)
            && r.sys.trace[|sys.trace| + 2] == ContextDestroyed(tag)
  {
    var p := PrepareUnary(sys.heap, cb, sendBuffer, sendBufferLen);
    var s1 := Submit(sys, p, CallOk).sys;
    assert p.tag == sys.heap.next && Footprint(p.tag, p.ctx) !! sys.heap.live by {
      assert p.tag in Footprint(p.tag, p.ctx);
      forall a | a in Footprint(p.tag, p.ctx) ensures a !in sys.heap.live {}
    }
    assert s1.slots[p.tag] == Slot(p.ctx, Submitted) && s1.heap == p.heap
        && s1.trace == sys.trace + [Started(p.tag, p.request, CallOk)];
    assert Holds(p.heap, p.tag, p.ctx);
    var s2 := NextWithCallback(s1, Event(OpComplete, BatchTag(p.tag), result));
    assert s2.Ok? && s2.sys.heap.live == sys.heap.live
        && s2.sys.trace == sys.trace + [Started(p.tag, p.request, CallOk), CallbackInvoked(cb, result, p.tag),
                                        ContextDestroyed(p.tag)] by {
      assert s1.heap.live - Footprint(p.tag, p.ctx) == sys.heap.live;
    }
  }

  /**
    grpcsharp_call_start_write_from_copied_buffer, the legacy write: the bytes
    are copied into a new buffer, the engine must accept the write (it is a
    fatal assertion otherwise), and the copy is released at once; completion
    arrives later as a legacy event tagged with `fn`.
   */
  function StartWriteFromCopiedBuffer(sys: System, buffer: seq<byte>, len: nat, fn: RawCallback,
                                      engine: CallError): (r: Outcome<()>)
    requires len <= |buffer|
    ensures r.Ok? <==> engine == CallOk
    ensures r.Ok? ==> r.sys.heap.live == sys.heap.live - {r.sys.heap.next - 1}
    ensures r.Ok? ==> r.sys.trace == sys.trace + [LegacyWriteStarted(fn, buffer[..len])]
    ensures r.Ok? && Valid(sys.heap) ==> r.sys.heap.live == sys.heap.live
  {
    var m := StringToByteBuffer(sys.heap, buffer, len);
    if engine != CallOk then Crashed(AssertionFailed)
    else match Free(m.heap, m.buffer.id)
      case DoubleFree(a) => Crashed(ContextDoubleFree(a))
      case Freed(h) =>
        Ok(sys.(heap := h, trace := sys.trace + [LegacyWriteStarted(fn, Concat(m.buffer.slices))]), ())
  }
}
