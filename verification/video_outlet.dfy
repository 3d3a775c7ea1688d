/** The Windows outlet delegate (windows/video_outlet.cc): a grow-only frame
    buffer that keeps the buffer it replaced alive until the display side
    next copies a frame. Buffer identity is an allocation number. */
module VideoOutlet {
  import opened Wrappers
  import opened VideoTypes

  /** A FrameBuffer: allocation number, byte capacity, and the frame size
      last recorded on its pixel-buffer descriptor. */
  datatype FrameBuffer = FrameBuffer(id: nat, size: nat, width: int, height: int)

  /** The outlet's buffers: current_buffer_, last_buffer_, and the number of
      buffers allocated so far (the next allocation number). */
  datatype Outlet = Outlet(current: Option<FrameBuffer>, last: Option<FrameBuffer>, allocations: nat)

  const Initial: Outlet := Outlet(None, None, 0)

  /** Every live buffer was allocated earlier, and the two slots never hold
      the same buffer. */
  predicate Valid(o: Outlet) {
    && (o.current.Some? ==> o.current.value.id < o.allocations)
    && (o.last.Some? ==> o.last.value.id < o.allocations)
    && (o.current.Some? && o.last.Some? ==> o.current.value.id != o.last.value.id)
  }

  /** The descriptor handed to the display side. */
  datatype PixelBufferDesc = PixelBufferDesc(buffer: nat, width: int, height: int)

  /** LockBuffer's outcome: the new outlet state, the returned handle and the
      pointer stored into *buffer (both name a buffer by allocation number). */
  datatype Locked = Locked(outlet: Outlet, handle: nat, data: nat)

  predicate NeedsNewBuffer(o: Outlet, required: nat) {
    o.current.None? || o.current.value.size < required
  }

  /** LockBuffer: reuse the current buffer when it is big enough; otherwise
      park it as the last buffer (dropping any older one) and allocate a new
      buffer of exactly the required size. Either way the frame's width and
      height are recorded on the current buffer. */
  function LockBuffer(o: Outlet, d: VideoDimensions): (r: Locked)
    requires RowsConsistent(d)
    ensures Valid(o) ==> Valid(r.outlet)
    ensures r.outlet.current.Some? && r.outlet.current.value.size >= RequiredSize(d)
    ensures r.outlet.current.value.width == d.width && r.outlet.current.value.height == d.height
    ensures r.handle == r.data == r.outlet.current.value.id
    ensures NeedsNewBuffer(o, RequiredSize(d)) ==>
              && r.outlet.last == o.current
              && r.outlet.current.value.id == o.allocations
              && r.outlet.current.value.size == RequiredSize(d)
              && r.outlet.allocations == o.allocations + 1
    ensures !NeedsNewBuffer(o, RequiredSize(d)) ==>
              && r.outlet.last == o.last
              && r.outlet.current.value.id == o.current.value.id
              && r.outlet.current.value.size == o.current.value.size
              && r.outlet.allocations == o.allocations
    ensures o.current.Some? ==> r.outlet.current.value.size >= o.current.value.size
  {
    var required := RequiredSize(d);
    var o1 :=
      if NeedsNewBuffer(o, required) then
        Outlet(Some(FrameBuffer(o.allocations, required, 0, 0)), o.current, o.allocations + 1)
      else o;
    var cur := o1.current.value.(width := d.width, height := d.height);
    var o2 := o1.(current := Some(cur));
    Locked(o2, cur.id, cur.id)
  }

  /** CopyPixelBuffer: the display side has finished with the older buffer,
      so it is released; the current buffer's descriptor is returned, or
      nothing when no frame was ever locked. */
  function CopyPixelBuffer(o: Outlet): (r: (Outlet, Option<PixelBufferDesc>))
    ensures Valid(o) ==> Valid(r.0)
    ensures r.0.last.None? && r.0.current == o.current && r.0.allocations == o.allocations
    ensures r.1.Some? <==> o.current.Some?
    ensures r.1.Some? ==> r.1.value == PixelBufferDesc(o.current.value.id, o.current.value.width, o.current.value.height)
  {
    var o1 := o.(last := None);
    match o.current
    case None => (o1, None)
    case Some(b) => (o1, Some(PixelBufferDesc(b.id, b.width, b.height)))
  }

  /** Locks a sequence of frames, one after another. */
  function LockAll(o: Outlet, ds: seq<VideoDimensions>): (r: Outlet)
    requires forall i :: 0 <= i < |ds| ==> RowsConsistent(ds[i])
    ensures Valid(o) ==> Valid(r)
    decreases |ds|
  {
    if |ds| == 0 then o else LockAll(LockBuffer(o, ds[0]).outlet, ds[1..])
  }

  /** Capacity never shrinks: across any sequence of locks the current
      buffer is at least as large as before and fits every frame locked. */
  lemma {:induction false} CapacityMonotone(o: Outlet, ds: seq<VideoDimensions>)
    requires forall i :: 0 <= i < |ds| ==> RowsConsistent(ds[i])
    ensures o.current.Some? ==> LockAll(o, ds).current.Some? && LockAll(o, ds).current.value.size >= o.current.value.size
    ensures forall i :: 0 <= i < |ds| ==> LockAll(o, ds).current.Some? && LockAll(o, ds).current.value.size >= RequiredSize(ds[i])
    decreases |ds|
  {
    if |ds| > 0 {
      var o1 := LockBuffer(o, ds[0]).outlet;
      CapacityMonotone(o1, ds[1..]);
      forall i | 0 <= i < |ds|
        ensures LockAll(o, ds).current.Some? && LockAll(o, ds).current.value.size >= RequiredSize(ds[i])
      {
        if i > 0 {
          assert ds[i] == ds[1..][i - 1];
        }
      }
    }
  }

  /** A frame that fits is written into the same buffer again: locking the
      same dimensions twice allocates once at most. */
  lemma RelockSameSizeReuses(o: Outlet, d: VideoDimensions)
    requires RowsConsistent(d)
    ensures var o1 := LockBuffer(o, d).outlet;
            LockBuffer(o1, d).outlet.current.value.id == o1.current.value.id &&
            LockBuffer(o1, d).outlet.allocations == o1.allocations
  {
  }
}
