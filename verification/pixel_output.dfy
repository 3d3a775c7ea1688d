/** The pixel-buffer video output (dartvlc/internal/video_output.cc): format
    negotiation with the engine, and the lock / unlock / picture callbacks it
    forwards to its delegate with the dimensions it has stored. */
module PixelOutput {
  import opened Ints
  import opened VideoTypes
  import VideoOutlet
  import FrameAdapter

  /** The two delegates of the source, as a tagged variant. */
  datatype Delegate =
    | OutletDelegate(outlet: VideoOutlet.Outlet)
    | AdapterDelegate(adapter: FrameAdapter.Adapter)

  /** PixelBufferOutput::Impl: its delegate, the pixel format it was built
      with, and current_dimensions_. */
  datatype Output = Output(delegate: Delegate, pixelFormat: PixelFormat, current: VideoDimensions)

  function New(delegate: Delegate, format: PixelFormat): (r: Output)
    ensures r.current == DefaultDimensions
  {
    Output(delegate, format, DefaultDimensions)
  }

  /** A width/height pair handed to the dimensions-changed callback. */
  datatype Size = Size(width: int, height: int)

  /** SetupFormat's results: the new output, the four chroma bytes, pitch,
      lines, the return value, and the dimensions-changed notifications fired. */
  datatype Negotiated = Negotiated(output: Output, chroma: string, pitch: int, lines: int, result: int, notified: seq<Size>)

  /** The chroma writes the switch performs, in order. The BGRA case has no
      `break`, so it falls through to the default case. */
  function ChromaWrites(f: PixelFormat): (r: seq<string>)
    ensures |r| >= 1 && r[|r| - 1] == "RGBA"
    ensures f == FormatBGRA <==> "BGRA" in r
  {
    (if f == FormatBGRA then ["BGRA"] else []) + ["RGBA"]
  }

  /** SetupFormat: negotiate the chroma, the pitch (visible width * 4, in
      uint32) and the line count; when the visible size differs from the
      stored one, store it with the new pitch and notify once. Returns 1. */
  function SetupFormat(o: Output, visibleWidth: int, visibleHeight: int): (r: Negotiated)
    requires IsU32(visibleWidth) && IsU32(visibleHeight)
    ensures r.chroma == "RGBA"
    ensures r.pitch == MulU32(visibleWidth, 4) && r.lines == visibleHeight
    ensures visibleWidth < 0x4000_0000 ==> r.pitch == visibleWidth * 4
    ensures r.result == 1
    ensures r.output.delegate == o.delegate && r.output.pixelFormat == o.pixelFormat
    ensures (o.current.width != visibleWidth || o.current.height != visibleHeight) ==>
              && r.output.current == VideoDimensions(visibleWidth, visibleHeight, r.pitch)
              && r.notified == [Size(visibleWidth, visibleHeight)]
    ensures (o.current.width == visibleWidth && o.current.height == visibleHeight) ==>
              r.output == o && r.notified == []
    ensures RowsConsistent(o.current) ==> RowsConsistent(r.output.current)
  {
    var writes := ChromaWrites(o.pixelFormat);
    var chroma := writes[|writes| - 1];
    var pitch := MulU32(visibleWidth, 4);
    if o.current.width != visibleWidth || o.current.height != visibleHeight then
      var o1 := o.(current := VideoDimensions(visibleWidth, visibleHeight, pitch));
      Negotiated(o1, chroma, pitch, visibleHeight, 1, [Size(visibleWidth, visibleHeight)])
    else
      Negotiated(o, chroma, pitch, visibleHeight, 1, [])
  }

  /** Even an output built for BGRA negotiates "RGBA". */
  lemma BgraNegotiatesRgba(o: Output, w: int, h: int)
    requires o.pixelFormat == FormatBGRA && IsU32(w) && IsU32(h)
    ensures SetupFormat(o, w, h).chroma != "BGRA"
    ensures "BGRA" in ChromaWrites(o.pixelFormat)
  {
  }

  /** Negotiates a sequence of visible sizes, collecting the notifications. */
  function NegotiateAll(o: Output, sizes: seq<Size>): (r: (Output, seq<Size>))
    requires forall i :: 0 <= i < |sizes| ==> IsU32(sizes[i].width) && IsU32(sizes[i].height)
    decreases |sizes|
  {
    if |sizes| == 0 then (o, [])
    else
      var n := SetupFormat(o, sizes[0].width, sizes[0].height);
      var rest := NegotiateAll(n.output, sizes[1..]);
      (rest.0, n.notified + rest.1)
  }

  /** The sizes, in order, that differ from the size stored just before them. */
  function Changes(w: int, h: int, sizes: seq<Size>): seq<Size>
    decreases |sizes|
  {
    if |sizes| == 0 then []
    else if sizes[0].width != w || sizes[0].height != h then
      [sizes[0]] + Changes(sizes[0].width, sizes[0].height, sizes[1..])
    else Changes(w, h, sizes[1..])
  }

  /** Over any sequence of negotiations, exactly one notification fires per
      actual size change, carrying the new size, and nothing else fires. */
  lemma {:induction false} NotifiesExactlyTheChanges(o: Output, sizes: seq<Size>)
    requires forall i :: 0 <= i < |sizes| ==> IsU32(sizes[i].width) && IsU32(sizes[i].height)
    ensures NegotiateAll(o, sizes).1 == Changes(o.current.width, o.current.height, sizes)
    decreases |sizes|
  {
    if |sizes| > 0 {
      var n := SetupFormat(o, sizes[0].width, sizes[0].height);
      NotifiesExactlyTheChanges(n.output, sizes[1..]);
      assert n.output.current.width == sizes[0].width && n.output.current.height == sizes[0].height;
    }
  }

  /** Stored bytes_per_row changes only together with the size, and then to
      4 * width. */
  lemma BytesPerRowFollowsSize(o: Output, w: int, h: int)
    requires IsU32(w) && IsU32(h)
    ensures SetupFormat(o, w, h).output.current.bytesPerRow != o.current.bytesPerRow ==>
              (o.current.width != w || o.current.height != h) &&
              SetupFormat(o, w, h).output.current.bytesPerRow == MulU32(w, 4)
  {
  }

  /** What keeps the outlet's assertion true: the stored dimensions always
      carry bytes_per_row == width * 4. */
  predicate Valid(o: Output) {
    && RowsConsistent(o.current)
    && (o.delegate.OutletDelegate? ==> VideoOutlet.Valid(o.delegate.outlet))
  }

  lemma NewIsValid(d: Delegate, f: PixelFormat)
    requires d.OutletDelegate? ==> VideoOutlet.Valid(d.outlet)
    ensures Valid(New(d, f))
  {
  }

  /** The lock / present calls' results: new output, the delegate's handle,
      and the plane pointer it wrote. */
  datatype LockedOutput = LockedOutput(output: Output, handle: nat, plane: nat)

  /** OnVideoLock: ask the delegate for a buffer for the stored dimensions. */
  function OnVideoLock(o: Output): (r: LockedOutput)
    requires o.delegate.OutletDelegate? ==> RowsConsistent(o.current)
    ensures r.output.current == o.current && r.output.pixelFormat == o.pixelFormat
    ensures r.handle == r.plane
    ensures o.delegate.OutletDelegate? ==>
              var l := VideoOutlet.LockBuffer(o.delegate.outlet, o.current);
              r.output.delegate == OutletDelegate(l.outlet) && r.handle == l.handle
    ensures o.delegate.AdapterDelegate? ==>
              var l := FrameAdapter.LockBuffer(o.delegate.adapter, o.current);
              r.output.delegate == AdapterDelegate(l.adapter) && r.handle == l.handle
    ensures Valid(o) ==> Valid(r.output)
  {
    match o.delegate
    case OutletDelegate(ol) =>
      var l := VideoOutlet.LockBuffer(ol, o.current);
      LockedOutput(o.(delegate := OutletDelegate(l.outlet)), l.handle, l.data)
    case AdapterDelegate(a) =>
      var l := FrameAdapter.LockBuffer(a, o.current);
      LockedOutput(o.(delegate := AdapterDelegate(l.adapter)), l.handle, l.data)
  }

  /** OnVideoUnlock: hand user_data to the delegate's UnlockBuffer. Neither
      delegate does anything there: the outlet overrides it with an empty
      body and the adapter keeps the delegate's empty default. */
  function OnVideoUnlock(o: Output, userData: nat): (r: Output)
    ensures r == o
  {
    o
  }

  /** OnVideoPicture: present user_data with the stored dimensions. The
      outlet only marks its texture (not part of this model); the adapter
      hands the frame to its callback. */
  function OnVideoPicture(o: Output, userData: nat): (r: seq<FrameAdapter.Frame>)
    ensures o.delegate.OutletDelegate? ==> r == []
    ensures o.delegate.AdapterDelegate? ==>
              |r| == (if o.delegate.adapter.hasFrameCallback then 1 else 0)
    ensures forall f :: f in r ==> f == FrameAdapter.Frame(userData, o.current)
  {
    match o.delegate
    case OutletDelegate(_) => []
    case AdapterDelegate(a) => FrameAdapter.PresentBuffer(a, o.current, userData)
  }

  /** Starting from a valid output, no interleaving of negotiations and locks
      can violate the outlet's bytes_per_row assertion. */
  lemma SetupFormatKeepsValid(o: Output, w: int, h: int)
    requires Valid(o) && IsU32(w) && IsU32(h)
    ensures Valid(SetupFormat(o, w, h).output)
  {
  }
}
