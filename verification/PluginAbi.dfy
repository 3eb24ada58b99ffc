/**
The native plugin ABI.  The plugin hands results to the host as raw buffers that it allocated
itself and that the host must give back through `free_buffer`.

`PluginHeap` holds the plugin-side allocations that are live; freeing demands a live buffer of
exactly that length, so a double free or a free of the wrong length would not verify.
*/
module PluginAbi {
  import opened Common

  /** `Dangling` is the non-null pointer of an empty boxed slice, which owns no memory. */
  datatype Pointer = Null | Dangling | Addr(at: nat)

  /** What the plugin's own handler does: a reply, an error text (as UTF-8 bytes) or a panic. */
  datatype Handled = Reply(bytes: seq<byte>) | Failure(text: seq<byte>) | Panicked

  datatype InvokeError =
    | NoVTable
    | Message(text: seq<byte>)
    | UnknownError
    | Panic
    | UnexpectedReturnCode(rc: int)

  /** What the out-parameters hold after a call. */
  datatype Returned = Returned(rc: int, ptr: Pointer, len: nat)

  class PluginHeap {
    var live: map<nat, seq<byte>>
    var next: nat

    ghost predicate Valid()
      reads this
    {
      forall a <- live :: a < next && live[a] != []
    }

    constructor ()
      ensures Valid() && live == map[]
    {
      live, next := map[], 0;
    }

    /** `Box::into_raw` of a boxed slice. */
    method IntoRaw(bytes: seq<byte>) returns (ptr: Pointer)
      requires Valid()
      modifies this
      ensures Valid()
      ensures bytes == [] ==> ptr == Dangling && live == old(live)
      ensures bytes != [] ==> ptr.Addr? && ptr.at !in old(live) && live == old(live)[ptr.at := bytes]
    {
      if bytes == [] {
        return Dangling;
      }
      ptr := Addr(next);
      live := live[next := bytes];
      next := next + 1;
    }

    predicate Owns(ptr: Pointer, len: nat)
      reads this
    {
      ptr.Addr? && ptr.at in live && |live[ptr.at]| == len
    }

    /** The generated `free_buffer`. */
    method FreeBuffer(ptr: Pointer, len: nat)
      requires Valid() && (ptr != Null && len > 0 ==> Owns(ptr, len))
      modifies this`live
      ensures Valid()
      ensures live == if ptr != Null && len > 0 then old(live) - {ptr.at} else old(live)
    {
      if ptr != Null && len > 0 {
        live := live - {ptr.at};
      }
    }

    method Read(ptr: Pointer, len: nat) returns (bytes: seq<byte>)
      requires Owns(ptr, len)
      ensures bytes == live[ptr.at]
    {
      bytes := live[ptr.at];
    }
  }

  /** The generated `invoke`: out-parameters start as null and 0, and a panic leaves them alone. */
  method PluginInvoke(heap: PluginHeap, handled: Handled) returns (r: Returned)
    requires heap.Valid()
    modifies heap
    ensures heap.Valid()
    ensures match handled
      case Reply(bytes) =>
        && r.rc == 0 && r.len == |bytes|
        && (if bytes == [] then r.ptr == Null && heap.live == old(heap.live)
            else r.ptr.Addr? && r.ptr.at !in old(heap.live) && heap.live == old(heap.live)[r.ptr.at := bytes])
      case Failure(text) =>
        && r.rc == -1 && r.len == |text|
        && (if text == [] then r.ptr == Dangling && heap.live == old(heap.live)
            else r.ptr.Addr? && r.ptr.at !in old(heap.live) && heap.live == old(heap.live)[r.ptr.at := text])
      case Panicked => r == Returned(-2, Null, 0) && heap.live == old(heap.live)
  {
    var outPtr, outLen := Null, 0;
    match handled
    case Reply(bytes) =>
      if bytes == [] {
        outPtr, outLen := Null, 0;
      } else {
        outPtr := heap.IntoRaw(bytes);
        outLen := |bytes|;
      }
      r := Returned(0, outPtr, outLen);
    case Failure(text) =>
      outPtr := heap.IntoRaw(text);
      outLen := |text|;
      r := Returned(-1, outPtr, outLen);
    case Panicked =>
      r := Returned(-2, outPtr, outLen);
  }

  /** The buffer that the host takes over from a call, and must free. */
  predicate HandsOver(r: Returned) { (r.rc == 0 || r.rc == -1) && r.ptr != Null && r.len > 0 }

  /**
  The host's half of `invoke`, against any plugin: a buffer is read and freed exactly when one is
  handed over, and nothing else on the plugin's heap changes.
  */
  method HostFinish(heap: PluginHeap, r: Returned) returns (result: Result<seq<byte>, InvokeError>)
    requires heap.Valid() && (HandsOver(r) ==> heap.Owns(r.ptr, r.len))
    modifies heap`live
    ensures heap.Valid()
    ensures heap.live == if HandsOver(r) then old(heap.live) - {r.ptr.at} else old(heap.live)
    ensures result ==
      if r.rc == 0 then Ok(if HandsOver(r) then old(heap.live)[r.ptr.at] else [])
      else if r.rc == -1 then Err(if HandsOver(r) then Message(old(heap.live)[r.ptr.at]) else UnknownError)
      else if r.rc == -2 then Err(Panic)
      else Err(UnexpectedReturnCode(r.rc))
  {
    if r.rc == 0 {
      if r.ptr == Null || r.len == 0 {
        result := Ok([]);
      } else {
        var data := heap.Read(r.ptr, r.len);
        heap.FreeBuffer(r.ptr, r.len);
        result := Ok(data);
      }
    } else if r.rc == -1 {
      if r.ptr != Null && r.len > 0 {
        var msg := heap.Read(r.ptr, r.len);
        heap.FreeBuffer(r.ptr, r.len);
        result := Err(Message(msg));
      } else {
        result := Err(UnknownError);
      }
    } else if r.rc == -2 {
      result := Err(Panic);
    } else {
      result := Err(UnexpectedReturnCode(r.rc));
    }
  }

  /** What the caller of `invoke` should see of the handler's outcome. */
  function Seen(handled: Handled): Result<seq<byte>, InvokeError> {
    match handled
    case Reply(bytes) => Ok(bytes)
    case Failure(text) => Err(if text == [] then UnknownError else Message(text))
    case Panicked => Err(Panic)
  }

  /**
  MAIN: every call across the boundary returns exactly the handler's outcome and leaves the plugin's
  live buffers as they were: nothing leaks and nothing is freed twice.
  */
  method Invoke(hasVTable: bool, heap: PluginHeap, handled: Handled) returns (result: Result<seq<byte>, InvokeError>)
    requires heap.Valid()
    modifies heap
    ensures heap.Valid() && heap.live == old(heap.live)
    ensures result == if hasVTable then Seen(handled) else Err(NoVTable)
  {
    if !hasVTable {
      return Err(NoVTable);
    }
    var r := PluginInvoke(heap, handled);
    result := HostFinish(heap, r);
    assert HandsOver(r) ==> old(heap.live)[r.ptr.at := []] - {r.ptr.at} == old(heap.live);
  }

  /** Any number of calls, on one heap. */
  method InvokeAll(heap: PluginHeap, calls: seq<Handled>) returns (results: seq<Result<seq<byte>, InvokeError>>)
    requires heap.Valid()
    modifies heap
    ensures heap.Valid() && heap.live == old(heap.live)
    ensures |results| == |calls| && forall i :: 0 <= i < |calls| ==> results[i] == Seen(calls[i])
  {
    results := [];
    for i := 0 to |calls|
      invariant heap.Valid() && heap.live == old(heap.live)
      invariant |results| == i && forall k :: 0 <= k < i ==> results[k] == Seen(calls[k])
    {
      var r := Invoke(true, heap, calls[i]);
      results := results + [r];
    }
  }
}
