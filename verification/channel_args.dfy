/**
  The channel-argument array the managed side builds before creating a
  channel or a server: a fixed number of entries, allocated zeroed, set one
  by one to string entries, and released together.
 */
module ChannelArgs {
  import opened Memory
  import opened Context

  /**
    The value of a grpc_arg, tagged by its grpc_arg_type. Type code 0 is
    GRPC_ARG_STRING, so a zero-filled entry is a string entry with a null value.
   */
  datatype ArgValue =
    | StringValue(text: Option<CString>)
    | IntegerValue(integer: int)
    | PointerValue(pointer: Option<Handle>)

  datatype Arg = Arg(key: Option<CString>, value: ArgValue)

  /** A zero-filled entry: null key, string type, null value. */
  predicate IsZeroArg(a: Arg) {
    a.key.None? && a.value == StringValue(None)
  }

  /** grpc_channel_args: the struct's allocation, the entry array's allocation, the entries. */
  datatype Args = Args(id: Handle, arrayId: Handle, entries: seq<Arg>)

  datatype NewArgs = NewArgs(args: Args, heap: Heap)

  /** grpcsharp_channel_args_create: `numArgs` zero-filled entries. */
  function Create(h: Heap, numArgs: nat): (r: NewArgs)
    ensures |r.args.entries| == numArgs
    ensures forall i :: 0 <= i < numArgs ==> IsZeroArg(r.args.entries[i])
    ensures r.args.id != r.args.arrayId
    ensures r.heap.live == h.live + {r.args.id, r.args.arrayId}
    ensures Valid(h) ==> Valid(r.heap) && r.args.id !in h.live && r.args.arrayId !in h.live
  {
    var s := Alloc(h);
    var a := Alloc(s.heap);
    NewArgs(Args(s.handle, a.handle, seq(numArgs, _ => Arg(None, StringValue(None)))), a.heap)
  }

  datatype SetResult = SetDone(args: Args, heap: Heap) | SetAborted

  /**
    grpcsharp_channel_args_set_string. Both a null array and an index past
    the end fail an assertion. Otherwise entry `index` becomes a string entry
    holding fresh copies of the key and the value, and no other entry changes.
   */
  function SetString(h: Heap, p: Option<Args>, index: nat, key: string, value: string): (r: SetResult)
    ensures r.SetAborted? <==> p.None? || index >= |p.value.entries|
    ensures r.SetDone? ==>
              && r.args.id == p.value.id && r.args.arrayId == p.value.arrayId
              && |r.args.entries| == |p.value.entries|
              && (forall j :: 0 <= j < |p.value.entries| && j != index ==>
                    r.args.entries[j] == p.value.entries[j])
    ensures r.SetDone? ==>
              var e := r.args.entries[index];
              && e.key.Some? && e.key.value.text == key
              && e.value.StringValue? && e.value.text.Some? && e.value.text.value.text == value
              && e.key.value.id != e.value.text.value.id
              && r.heap.live == h.live + {e.key.value.id, e.value.text.value.id}
              && (Valid(h) ==> Valid(r.heap) && e.key.value.id !in h.live && e.value.text.value.id !in h.live)
  {
    if p.None? || index >= |p.value.entries| then SetAborted
    else
      var k := Alloc(h);
      var v := Alloc(k.heap);
      var entry := Arg(Some(CString(k.handle, key)), StringValue(Some(CString(v.handle, value))));
      SetDone(p.value.(entries := p.value.entries[index := entry]), v.heap)
  }

  /** What destroy frees for one entry: the key always, the value only for string entries. */
  function EntryRelease(a: Arg): seq<Handle> {
    StringFree(a.key) + (if a.value.StringValue? then StringFree(a.value.text) else [])
  }

  function EntriesRelease(entries: seq<Arg>): seq<Handle> {
    if |entries| == 0 then []
    else EntriesRelease(entries[..|entries| - 1]) + EntryRelease(entries[|entries| - 1])
  }

  function KeyHandles(entries: seq<Arg>): set<Handle> {
    set i | 0 <= i < |entries| && entries[i].key.Some? :: entries[i].key.value.id
  }

  function StringValueHandles(entries: seq<Arg>): set<Handle> {
    set i | 0 <= i < |entries| && entries[i].value.StringValue? && entries[i].value.text.Some?
      :: entries[i].value.text.value.id
  }

  function LastValueHandles(a: Arg): set<Handle> {
    if a.value.StringValue? then StringHandles(a.value.text) else {}
  }

  lemma KeyHandlesSnoc(init: seq<Arg>, last: Arg)
    ensures KeyHandles(init + [last]) == KeyHandles(init) + StringHandles(last.key)
  {
    var entries := init + [last];
    forall a | a in KeyHandles(entries) ensures a in KeyHandles(init) + StringHandles(last.key) {
      var i :| 0 <= i < |entries| && entries[i].key.Some? && entries[i].key.value.id == a;
      if i < |init| { assert init[i] == entries[i]; }
    }
    forall a | a in KeyHandles(init) ensures a in KeyHandles(entries) {
      var i :| 0 <= i < |init| && init[i].key.Some? && init[i].key.value.id == a;
      assert entries[i] == init[i];
    }
    if last.key.Some? {
      assert entries[|init|] == last;
    }
  }

  lemma StringValueHandlesSnoc(init: seq<Arg>, last: Arg)
    ensures StringValueHandles(init + [last]) == StringValueHandles(init) + LastValueHandles(last)
  {
    var entries := init + [last];
    forall a | a in StringValueHandles(entries) ensures a in StringValueHandles(init) + LastValueHandles(last) {
      var i :| 0 <= i < |entries| && entries[i].value.StringValue? && entries[i].value.text.Some?
               && entries[i].value.text.value.id == a;
      if i < |init| { assert init[i] == entries[i]; }
    }
    forall a | a in StringValueHandles(init) ensures a in StringValueHandles(entries) {
      var i :| 0 <= i < |init| && init[i].value.StringValue? && init[i].value.text.Some?
               && init[i].value.text.value.id == a;
      assert entries[i] == init[i];
    }
    if last.value.StringValue? && last.value.text.Some? {
      assert entries[|init|] == last;
    }
  }

  /** The identities destroy frees for the entries are their keys and their string values. */
  lemma {:induction false} EntriesReleaseCovers(entries: seq<Arg>)
    ensures Elems(EntriesRelease(entries)) == KeyHandles(entries) + StringValueHandles(entries)
    decreases |entries|
  {
    if |entries| > 0 {
      var n := |entries| - 1;
      var init, last := entries[..n], entries[n];
      assert entries == init + [last];
      EntriesReleaseCovers(init);
      ElemsAppend(EntriesRelease(init), EntryRelease(last));
      ElemsAppend(StringFree(last.key), if last.value.StringValue? then StringFree(last.value.text) else []);
      KeyHandlesSnoc(init, last);
      StringValueHandlesSnoc(init, last);
    } else {
      assert KeyHandles(entries) == {};
      assert StringValueHandles(entries) == {};
    }
  }

  /** Every allocation destroy frees, in its order: the entries, then the array, then the struct. */
  function ReleaseOrder(a: Args): seq<Handle> {
    EntriesRelease(a.entries) + [a.arrayId, a.id]
  }

  /**
    grpcsharp_channel_args_destroy. Null is a no-op. Otherwise it frees the
    key of every entry, the value of every string entry (and of no other
    entry), then the entry array and the struct; it fails, as a double free,
    exactly when one of these is shared or no longer live.
   */
  method Destroy(h: Heap, p: Option<Args>) returns (r: Freed)
    ensures p.None? ==> r == Freed(h)
    ensures p.Some? ==> (r.Freed? <==> Distinct(ReleaseOrder(p.value)) && Elems(ReleaseOrder(p.value)) <= h.live)
    ensures p.Some? && r.Freed? ==>
              r.heap.live == h.live - KeyHandles(p.value.entries) - StringValueHandles(p.value.entries)
                             - {p.value.arrayId, p.value.id}
    ensures p.Some? && r.Freed? ==> r.heap == Heap(h.live - Elems(ReleaseOrder(p.value)), h.next)
  {
    if p.None? {
      return Freed(h);
    }
    var args := p.value;
    var entries := args.entries;
    var cur := Freed(h);
    var i := 0;
    while i < |entries|
      invariant 0 <= i <= |entries|
      invariant cur == FreeAll(h, EntriesRelease(entries[..i]))
    {
      assert entries[..i + 1][..i] == entries[..i];
      FreeAllAppend(h, EntriesRelease(entries[..i]), EntryRelease(entries[i]));
      if cur.Freed? {
        cur := FreeAll(cur.heap, EntryRelease(entries[i]));
      }
      i := i + 1;
    }
    assert entries[..i] == entries;
    FreeAllAppend(h, EntriesRelease(entries), [args.arrayId, args.id]);
    if cur.Freed? {
      cur := FreeAll(cur.heap, [args.arrayId, args.id]);
    }
    FreeAllReleasesExactly(h, ReleaseOrder(args));
    EntriesReleaseCovers(entries);
    assert Elems(ReleaseOrder(args)) == Elems(EntriesRelease(entries)) + {args.arrayId, args.id};
    r := cur;
  }

  /** Destroy can release the array: everything it frees is live and freed once. */
  predicate Releasable(h: Heap, a: Args) {
    Distinct(ReleaseOrder(a)) && Elems(ReleaseOrder(a)) <= h.live
  }

  /** Entries from `k` on are still as create left them. */
  predicate FilledUpTo(a: Args, k: nat) {
    forall i :: k <= i < |a.entries| ==> IsZeroArg(a.entries[i])
  }

  lemma {:induction false} ZeroTailReleasesNothing(entries: seq<Arg>, k: nat)
    requires k <= |entries|
    requires forall i :: k <= i < |entries| ==> IsZeroArg(entries[i])
    ensures EntriesRelease(entries) == EntriesRelease(entries[..k])
    decreases |entries|
  {
    if |entries| > k {
      var n := |entries| - 1;
      assert IsZeroArg(entries[n]);
      assert entries[..n][..k] == entries[..k];
      ZeroTailReleasesNothing(entries[..n], k);
    } else {
      assert entries[..k] == entries;
    }
  }

  lemma DistinctInsert(x: seq<Handle>, m: seq<Handle>, y: seq<Handle>)
    requires Distinct(x + y) && Distinct(m)
    requires Elems(m) !! Elems(x + y)
    ensures Distinct(x + m + y)
  {
    var s := x + m + y;
    forall i, j | 0 <= i < j < |s| ensures s[i] != s[j] {
      var xy := x + y;
      if i < |x| && j < |x| {
        assert s[i] == xy[i] && s[j] == xy[j];
      } else if i < |x| && j < |x| + |m| {
        assert s[i] == xy[i] && s[j] == m[j - |x|];
        assert xy[i] in Elems(xy) && m[j - |x|] in Elems(m);
      } else if i < |x| {
        assert s[i] == xy[i] && s[j] == xy[j - |m|];
      } else if i < |x| + |m| && j < |x| + |m| {
        assert s[i] == m[i - |x|] && s[j] == m[j - |x|];
      } else if i < |x| + |m| {
        assert s[i] == m[i - |x|] && s[j] == xy[j - |m|];
        assert xy[j - |m|] in Elems(xy) && m[i - |x|] in Elems(m);
      } else {
        assert s[i] == xy[i - |m|] && s[j] == xy[j - |m|];
      }
    }
  }

  /** A new array can be destroyed at once, and destroying it frees exactly what create allocated. */
  lemma CreateReleasable(h: Heap, numArgs: nat)
    requires Valid(h)
    ensures var c := Create(h, numArgs);
            && FilledUpTo(c.args, 0)
            && Releasable(c.heap, c.args)
            && c.heap.live - Elems(ReleaseOrder(c.args)) == h.live
  {
    var c := Create(h, numArgs);
    ZeroTailReleasesNothing(c.args.entries, 0);
    assert ReleaseOrder(c.args) == [c.args.arrayId, c.args.id];
  }

  /** Setting the first unset entry appends its release to those of the entries before it. */
  lemma ReleaseOrderAfterSet(a: Args, k: nat, e: Arg)
    requires k < |a.entries| && FilledUpTo(a, k)
    ensures FilledUpTo(a.(entries := a.entries[k := e]), k + 1)
    ensures ReleaseOrder(a) == EntriesRelease(a.entries[..k]) + [a.arrayId, a.id]
    ensures ReleaseOrder(a.(entries := a.entries[k := e]))
            == EntriesRelease(a.entries[..k]) + EntryRelease(e) + [a.arrayId, a.id]
  {
    var u := a.entries[k := e];
    ZeroTailReleasesNothing(a.entries, k);
    ZeroTailReleasesNothing(u, k + 1);
    assert u[..k + 1][..k] == a.entries[..k];
  }

  /**
    Setting the next unset entry keeps the array releasable, and what destroy
    would free grows by exactly the two copies set_string allocated: filling
    the entries in order and then destroying leaks nothing and frees nothing twice.
   */
  lemma SetNextKeepsReleasable(h: Heap, a: Args, k: nat, key: string, value: string)
    requires Valid(h) && Releasable(h, a)
    requires k < |a.entries| && FilledUpTo(a, k)
    ensures SetString(h, Some(a), k, key, value).SetDone?
    ensures var s := SetString(h, Some(a), k, key, value);
            && FilledUpTo(s.args, k + 1)
            && Releasable(s.heap, s.args)
            && s.heap.live - Elems(ReleaseOrder(s.args)) == h.live - Elems(ReleaseOrder(a))
  {
    var s := SetString(h, Some(a), k, key, value);
    var e := s.args.entries[k];
    assert s.args == a.(entries := a.entries[k := e]);
    ReleaseOrderAfterSet(a, k, e);
    var x := EntriesRelease(a.entries[..k]);
    var kv := EntryRelease(e);
    var ids := [a.arrayId, a.id];
    assert kv == [e.key.value.id, e.value.text.value.id];
    ElemsAppend(x, ids);
    assert Elems(kv) !! Elems(x + ids);
    DistinctInsert(x, kv, ids);
    ElemsAppend(x + kv, ids);
    ElemsAppend(x, kv);
  }
}
