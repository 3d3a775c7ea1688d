/** The frame adapter delegate (dartvlc/api/video_frame_adapter.cc), used on
    builds that post raw frames to the host. Its recorded buffer size starts
    at zero and is never assigned, so it reallocates on nearly every lock. */
module FrameAdapter {
  import opened Wrappers
  import opened VideoTypes

  /** buffer_ (an allocation number, or none), buffer_size_, the number of
      buffers allocated so far, and whether a frame callback is installed. */
  datatype Adapter = Adapter(buffer: Option<nat>, bufferSize: nat, allocations: nat, hasFrameCallback: bool)

  /** The defaulted constructor: no buffer, recorded size 0, no callback. */
  const Initial: Adapter := Adapter(None, 0, 0, false)

  /** A frame handed to the frame callback: the buffer and the dimensions. */
  datatype Frame = Frame(buffer: nat, dimensions: VideoDimensions)

  /** LockBuffer's outcome: new state, returned pointer, and *buffer. */
  datatype Locked = Locked(adapter: Adapter, handle: nat, data: nat)

  /** OnFrameArrived: install the frame callback (the last one wins). */
  function OnFrameArrived(a: Adapter): (r: Adapter)
    ensures r.hasFrameCallback
    ensures r.buffer == a.buffer && r.bufferSize == a.bufferSize && r.allocations == a.allocations
  {
    a.(hasFrameCallback := true)
  }

  /** LockBuffer: a fresh buffer of the required size when there is none or
      the recorded size is smaller than required; the recorded size itself is
      left as it was. Pointer and out-parameter are the same buffer. */
  function LockBuffer(a: Adapter, d: VideoDimensions): (r: Locked)
    ensures r.adapter.buffer.Some?
    ensures r.handle == r.data == r.adapter.buffer.value
    ensures r.adapter.bufferSize == a.bufferSize
    ensures r.adapter.hasFrameCallback == a.hasFrameCallback
    ensures (a.buffer.None? || a.bufferSize < RequiredSize(d)) <==> r.adapter.allocations == a.allocations + 1
    ensures (a.buffer.None? || a.bufferSize < RequiredSize(d)) ==> r.handle == a.allocations
    ensures !(a.buffer.None? || a.bufferSize < RequiredSize(d)) ==> r.adapter == a
  {
    var required := RequiredSize(d);
    var a1 :=
      if a.buffer.None? || a.bufferSize < required then
        a.(buffer := Some(a.allocations), allocations := a.allocations + 1)
      else a;
    Locked(a1, a1.buffer.value, a1.buffer.value)
  }

  /** PresentBuffer: the buffer and dimensions go to the frame callback
      exactly when one is installed. */
  function PresentBuffer(a: Adapter, d: VideoDimensions, buffer: nat): (r: seq<Frame>)
    ensures |r| == (if a.hasFrameCallback then 1 else 0)
    ensures forall f :: f in r ==> f == Frame(buffer, d)
  {
    if a.hasFrameCallback then [Frame(buffer, d)] else []
  }

  /** Because the recorded size stays 0, every lock whose required size is
      positive allocates a new buffer, over any sequence of locks. */
  lemma {:induction false} EveryPositiveLockReallocates(a: Adapter, ds: seq<VideoDimensions>)
    requires a.bufferSize == 0
    requires forall i :: 0 <= i < |ds| ==> RequiredSize(ds[i]) > 0
    ensures LockAll(a, ds).bufferSize == 0
    ensures LockAll(a, ds).allocations == a.allocations + |ds|
    decreases |ds|
  {
    if |ds| > 0 {
      var a1 := LockBuffer(a, ds[0]).adapter;
      assert a1.allocations == a.allocations + 1;
      assert forall i :: 0 <= i < |ds[1..]| ==> RequiredSize(ds[1..][i]) > 0 by {
        forall i | 0 <= i < |ds[1..]| ensures RequiredSize(ds[1..][i]) > 0 {
          assert ds[1..][i] == ds[i + 1];
        }
      }
      EveryPositiveLockReallocates(a1, ds[1..]);
    }
  }

  /** A lock that needs zero bytes keeps an existing buffer. */
  lemma ZeroSizedLockKeepsBuffer(a: Adapter, d: VideoDimensions)
    requires a.buffer.Some? && RequiredSize(d) == 0
    ensures LockBuffer(a, d).adapter == a
    ensures LockBuffer(a, d).handle == a.buffer.value
  {
  }

  function LockAll(a: Adapter, ds: seq<VideoDimensions>): (r: Adapter)
    ensures r.bufferSize == a.bufferSize
    decreases |ds|
  {
    if |ds| == 0 then a else LockAll(LockBuffer(a, ds[0]).adapter, ds[1..])
  }
}
